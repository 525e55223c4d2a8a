/**
 * The text chunker: a grapheme sequence is cut into windows of at most
 * `chunk_size` graphemes, each window is pulled back to the end of its last
 * sentence boundary (`[.!?]+\s+`), optionally trimmed, and the cursor steps
 * back by `overlap` before the next window.
 *
 * Graphemes are given (segmentation is a library's job). A sentence-boundary
 * match end is a byte offset inside the concatenated window and is added to
 * a grapheme index, so the model requires every grapheme to be one byte
 * (ASCII text), where the two units agree.
 */
module Chunker {
  import opened Wrappers
  import opened Bytes

  // ---------------------------------------------------------------------
  // Character classes (ASCII, where `\s` and `str::trim` agree).

  predicate IsTerminal(b: byte)
  {
    b == 0x2E || b == 0x21 || b == 0x3F
  }

  predicate IsSpace(b: byte)
  {
    b == 0x20 || (0x09 <= b && b <= 0x0D)
  }

  /** The first index at or after `i` that is not a sentence terminal. */
  function SkipTerminals(w: seq<byte>, i: nat): (j: nat)
    requires i <= |w|
    decreases |w| - i
    ensures i <= j <= |w| && (j == |w| || !IsTerminal(w[j]))
    ensures forall k :: i <= k < j ==> IsTerminal(w[k])
  {
    if i == |w| || !IsTerminal(w[i]) then i else SkipTerminals(w, i + 1)
  }

  /** The first index at or after `i` that is not white space. */
  function SkipSpaces(w: seq<byte>, i: nat): (j: nat)
    requires i <= |w|
    decreases |w| - i
    ensures i <= j <= |w| && (j == |w| || !IsSpace(w[j]))
    ensures forall k :: i <= k < j ==> IsSpace(w[k])
  {
    if i == |w| || !IsSpace(w[i]) then i else SkipSpaces(w, i + 1)
  }

  // ---------------------------------------------------------------------
  // Sentence boundaries.

  /**
   * The ends of the successive non-overlapping leftmost matches of
   * `[.!?]+\s+` found from `i` on, in the order the regex iterator yields
   * them. From a terminal, the greedy `[.!?]+` takes the whole run of
   * terminals; the match succeeds only if white space follows, and `\s+`
   * then takes the whole run of white space.
   */
  function MatchEnds(w: seq<byte>, i: nat): (ends: seq<nat>)
    requires i <= |w|
    decreases |w| - i
    ensures forall k :: 0 <= k < |ends| ==> i < ends[k] <= |w|
  {
    if i == |w| then []
    else if IsTerminal(w[i]) then
      var j := SkipTerminals(w, i);
      var k := SkipSpaces(w, j);
      if k > j then [k] + MatchEnds(w, k) else MatchEnds(w, j)
    else MatchEnds(w, i + 1)
  }

  /** The end of the last sentence boundary in the window, if any. */
  function LastMatchEnd(w: seq<byte>): (r: Option<nat>)
    ensures r.Some? ==> 0 < r.value <= |w|
  {
    var ends := MatchEnds(w, 0);
    if ends == [] then None else Some(ends[|ends| - 1])
  }

  /** The start of the run of white space that ends at `e`. */
  function SpaceRunStart(w: seq<byte>, e: nat): (r: nat)
    requires e <= |w|
    ensures r <= e && (r == 0 || !IsSpace(w[r - 1]))
    ensures forall k :: r <= k < e ==> IsSpace(w[k])
  {
    if e == 0 || !IsSpace(w[e - 1]) then e else SpaceRunStart(w, e - 1)
  }

  /**
   * Reference definition of a sentence-boundary end: `e` closes a maximal
   * run of white space that directly follows a sentence terminal.
   */
  predicate BoundaryEnd(w: seq<byte>, e: nat)
  {
    0 < e <= |w| && IsSpace(w[e - 1]) && (e == |w| || !IsSpace(w[e]))
    && SpaceRunStart(w, e) > 0 && IsTerminal(w[SpaceRunStart(w, e) - 1])
  }

  /** A boundary whose terminal lies at or after `i`. */
  predicate BoundaryFrom(w: seq<byte>, i: nat, e: nat)
  {
    BoundaryEnd(w, e) && i < SpaceRunStart(w, e)
  }

  predicate Increasing(s: seq<nat>)
  {
    forall a, b :: 0 <= a < b < |s| ==> s[a] < s[b]
  }

  /** A space run that starts right after `j` and ends at `e` is the run `SkipSpaces` finds. */
  lemma RunEndUnique(w: seq<byte>, j: nat, e: nat)
    requires j <= e <= |w| && SpaceRunStart(w, e) == j && (e == |w| || !IsSpace(w[e]))
    ensures SkipSpaces(w, j) == e
  {
  }

  /** Past a terminal run `[i, j)` followed by white space up to `k`, the next boundary is `k`. */
  lemma BoundariesPastMatch(w: seq<byte>, i: nat, j: nat, k: nat)
    requires i < j <= k <= |w| && j < k
    requires j == SkipTerminals(w, i) && k == SkipSpaces(w, j)
    ensures forall e :: BoundaryFrom(w, i, e) <==> e == k || BoundaryFrom(w, k, e)
  {
    SpaceRunStartOf(w, j, k);
    forall e | BoundaryFrom(w, i, e) && !BoundaryFrom(w, k, e)
      ensures e == k
    {
      RunEndUnique(w, j, e);
    }
  }

  /** A terminal run not followed by white space holds no boundary. */
  lemma BoundariesPastFailedMatch(w: seq<byte>, i: nat, j: nat)
    requires i < j <= |w| && j == SkipTerminals(w, i) && SkipSpaces(w, j) == j
    ensures forall e :: BoundaryFrom(w, i, e) <==> BoundaryFrom(w, j, e)
  {
    forall e | BoundaryFrom(w, i, e)
      ensures BoundaryFrom(w, j, e)
    {
    }
  }

  /** A byte that is not a terminal starts no boundary. */
  lemma BoundariesPastOther(w: seq<byte>, i: nat)
    requires i < |w| && !IsTerminal(w[i])
    ensures forall e :: BoundaryFrom(w, i, e) <==> BoundaryFrom(w, i + 1, e)
  {
  }

  /**
   * The regex iterator finds exactly the reference boundaries, in
   * increasing order.
   */
  lemma {:induction false} MatchEndsAreBoundaries(w: seq<byte>, i: nat)
    requires i <= |w|
    decreases |w| - i
    ensures Increasing(MatchEnds(w, i))
    ensures forall e :: e in MatchEnds(w, i) <==> BoundaryFrom(w, i, e)
  {
    if i == |w| {
      assert forall e :: !BoundaryFrom(w, i, e);
    } else if IsTerminal(w[i]) {
      var j := SkipTerminals(w, i);
      var k := SkipSpaces(w, j);
      if k > j {
        MatchEndsAreBoundaries(w, k);
        BoundariesPastMatch(w, i, j, k);
      } else {
        MatchEndsAreBoundaries(w, j);
        BoundariesPastFailedMatch(w, i, j);
      }
    } else {
      MatchEndsAreBoundaries(w, i + 1);
      BoundariesPastOther(w, i);
    }
  }

  lemma SpaceRunStartOf(w: seq<byte>, j: nat, k: nat)
    requires 0 < j < k <= |w| && !IsSpace(w[j - 1])
    requires forall m :: j <= m < k ==> IsSpace(w[m])
    ensures SpaceRunStart(w, k) == j
    decreases k
  {
    if k - 1 > j {
      SpaceRunStartOf(w, j, k - 1);
    }
  }

  /**
   * `LastMatchEnd` is the largest reference boundary of the window, and is
   * None exactly when the window holds no boundary.
   */
  lemma {:induction false} LastMatchEndIsLastBoundary(w: seq<byte>)
    ensures LastMatchEnd(w).None? ==> forall e :: !BoundaryEnd(w, e)
    ensures LastMatchEnd(w).Some? ==> BoundaryEnd(w, LastMatchEnd(w).value)
    ensures LastMatchEnd(w).Some? ==> forall e :: LastMatchEnd(w).value < e ==> !BoundaryEnd(w, e)
  {
    MatchEndsAreBoundaries(w, 0);
    var ends := MatchEnds(w, 0);
    if ends == [] {
      forall e | BoundaryEnd(w, e)
        ensures false
      {
        assert BoundaryFrom(w, 0, e);
      }
    } else {
      var last := ends[|ends| - 1];
      assert last in ends;
      forall e | e in ends
        ensures e <= last
      {
        var k :| 0 <= k < |ends| && ends[k] == e;
      }
      forall e | last < e && BoundaryEnd(w, e)
        ensures false
      {
        assert BoundaryFrom(w, 0, e);
      }
    }
  }

  /** A boundary ends after at least one terminal and one white-space byte. */
  lemma BoundaryEndAtLeastTwo(w: seq<byte>, e: nat)
    requires BoundaryEnd(w, e)
    ensures 2 <= e
  {
  }

  // ---------------------------------------------------------------------
  // Trimming (`str::trim` on ASCII text). The trimmed text ends where the
  // trailing run of white space starts.

  /** `r` is `s[a..a + |r|]` and only white space surrounds it in `s`. */
  predicate TrimmedAt(s: seq<byte>, r: seq<byte>, a: nat)
  {
    a + |r| <= |s| && s[a..a + |r|] == r
    && (forall k :: 0 <= k < a ==> IsSpace(s[k]))
    && (forall k :: a + |r| <= k < |s| ==> IsSpace(s[k]))
  }

  /**
   * `s` without leading and trailing white space: a slice of `s` that is
   * empty or starts and ends with a non-space byte, and outside of which
   * every byte is white space.
   */
  function Trim(s: seq<byte>): (r: seq<byte>)
    ensures |r| <= |s|
    ensures r == [] <==> forall k :: 0 <= k < |s| ==> IsSpace(s[k])
    ensures r != [] ==> !IsSpace(r[0]) && !IsSpace(r[|r| - 1])
    ensures exists a :: TrimmedAt(s, r, a)
  {
    var a := SkipSpaces(s, 0);
    var b := SpaceRunStart(s, |s|);
    if b <= a then
      assert a == |s|;
      assert TrimmedAt(s, [], 0);
      []
    else
      assert !IsSpace(s[a]);
      assert TrimmedAt(s, s[a..b], a);
      s[a..b]
  }

  /** Trimming twice is trimming once. */
  lemma TrimIdempotent(s: seq<byte>)
    ensures Trim(Trim(s)) == Trim(s)
  {
    var r := Trim(s);
    if r != [] {
      assert SkipSpaces(r, 0) == 0;
      assert SpaceRunStart(r, |r|) == |r|;
      assert r[0..|r|] == r;
    }
  }

  // ---------------------------------------------------------------------
  // Graphemes.

  /** Concatenation of a run of graphemes (`[&str]::concat`). */
  function Concat(gs: seq<seq<byte>>): (s: seq<byte>)
  {
    if gs == [] then [] else gs[0] + Concat(gs[1..])
  }

  predicate OneByte(gs: seq<seq<byte>>)
  {
    forall i :: 0 <= i < |gs| ==> |gs[i]| == 1
  }

  /** With one-byte graphemes, byte `k` of the concatenation is grapheme `k`. */
  lemma {:induction false} ConcatOneByte(gs: seq<seq<byte>>)
    requires OneByte(gs)
    ensures |Concat(gs)| == |gs|
    ensures forall k :: 0 <= k < |gs| ==> Concat(gs)[k] == gs[k][0]
  {
    if gs != [] {
      ConcatOneByte(gs[1..]);
    }
  }

  lemma {:induction false} ConcatLength(gs: seq<seq<byte>>)
    requires OneByte(gs)
    ensures |Concat(gs)| == |gs|
  {
    if gs != [] {
      ConcatLength(gs[1..]);
    }
  }

  // ---------------------------------------------------------------------
  // Chunks.

  datatype TextConfig = TextConfig(
    chunkSize: nat,
    overlap: nat,
    preserveWhitespace: bool,
    preserveNewlines: bool,
    trimChunks: bool)

  datatype ChunkMetadata = ChunkMetadata(language: Option<seq<byte>>, confidence: nat)

  datatype TextChunk = TextChunk(text: seq<byte>, start: nat, end: nat, metadata: ChunkMetadata)

  /** The bit pattern of the f64 value 1.0. */
  const ONE_F64: nat := 0x3FF0_0000_0000_0000

  const DEFAULT_METADATA := ChunkMetadata(None, ONE_F64)

  /** `process_text` chunks with these fixed settings. */
  const PROCESS_TEXT_CONFIG := TextConfig(1024, 200, false, true, true)

  function Min(a: nat, b: nat): nat
  {
    if a <= b then a else b
  }

  function Max(a: int, b: int): int
  {
    if a >= b then a else b
  }

  /** The hard window end: `chunk_size` graphemes on, or the end of the text. */
  function HardEnd(len: nat, start: nat, cfg: TextConfig): nat
  {
    Min(start + cfg.chunkSize, len)
  }

  function Window(g: seq<seq<byte>>, a: nat, b: nat): seq<byte>
    requires a <= b <= |g|
  {
    Concat(g[a..b])
  }

  /**
   * Where the chunk that starts at `start` ends: at the last sentence
   * boundary of the window when the window stops short of the text's end
   * and holds one, otherwise at the hard end.
   */
  function SnapEnd(g: seq<seq<byte>>, cfg: TextConfig, start: nat): (e: nat)
    requires OneByte(g) && cfg.chunkSize > 0 && start < |g|
    ensures start < e <= HardEnd(|g|, start, cfg)
  {
    var end := HardEnd(|g|, start, cfg);
    if end < |g| then
      ConcatLength(g[start..end]);
      match LastMatchEnd(Window(g, start, end))
      case Some(m) => start + m
      case None => end
    else end
  }

  /** The chunk's text: the concatenated graphemes, trimmed iff `trim_chunks`. */
  function ChunkTextOf(g: seq<seq<byte>>, cfg: TextConfig, start: nat, end: nat): seq<byte>
    requires start <= end <= |g|
  {
    var s := Window(g, start, end);
    if cfg.trimChunks then Trim(s) else s
  }

  /**
   * The cursor after a chunk. The loop stops once a chunk reaches the end
   * of the text; otherwise it steps back by `overlap` from the chunk end,
   * but always at least one grapheme past the previous start.
   */
  function NextStart(len: nat, start: nat, chunkEnd: nat, overlap: nat): (n: nat)
    requires start < chunkEnd <= len
    ensures start < n <= len
  {
    if chunkEnd == len then len else Max(chunkEnd - overlap, start + 1)
  }

  /** The chunks produced from cursor `start` on. */
  function ChunksFrom(g: seq<seq<byte>>, cfg: TextConfig, start: nat): seq<TextChunk>
    requires OneByte(g) && cfg.chunkSize > 0 && start <= |g|
    decreases |g| - start
  {
    if start == |g| then []
    else
      var e := SnapEnd(g, cfg, start);
      [TextChunk(ChunkTextOf(g, cfg, start, e), start, e, DEFAULT_METADATA)]
        + ChunksFrom(g, cfg, NextStart(|g|, start, e, cfg.overlap))
  }

  lemma ChunksFromUnfold(g: seq<seq<byte>>, cfg: TextConfig, start: nat, c: TextChunk)
    requires OneByte(g) && cfg.chunkSize > 0 && start < |g|
    requires c.start == start && c.end == SnapEnd(g, cfg, start)
    requires c.text == ChunkTextOf(g, cfg, start, c.end) && c.metadata == DEFAULT_METADATA
    ensures ChunksFrom(g, cfg, start) == [c] + ChunksFrom(g, cfg, NextStart(|g|, start, c.end, cfg.overlap))
  {
  }

  function ChunkText(g: seq<seq<byte>>, cfg: TextConfig): seq<TextChunk>
    requires OneByte(g) && cfg.chunkSize > 0
  {
    ChunksFrom(g, cfg, 0)
  }

  /**
   * The window end and its pull-back to the last sentence boundary, the
   * first half of the body of the chunking loop.
   */
  method FindChunkEnd(g: seq<seq<byte>>, cfg: TextConfig, start: nat) returns (chunkEnd: nat)
    requires OneByte(g) && cfg.chunkSize > 0 && start < |g|
    ensures chunkEnd == SnapEnd(g, cfg, start)
  {
    var end := Min(start + cfg.chunkSize, |g|);
    chunkEnd := end;
    if end < |g| {
      ConcatLength(g[start..end]);
      var boundary := LastMatchEnd(Concat(g[start..end]));
      if boundary.Some? {
        chunkEnd := start + boundary.value;
      }
    }
  }

  /**
   * One pass of the chunking loop: the chunk that starts at `start`, and
   * the cursor for the next pass (with the corrected step).
   */
  method NextChunk(g: seq<seq<byte>>, cfg: TextConfig, start: nat) returns (chunk: TextChunk, next: nat)
    requires OneByte(g) && cfg.chunkSize > 0 && start < |g|
    ensures start < next <= |g|
    ensures [chunk] + ChunksFrom(g, cfg, next) == ChunksFrom(g, cfg, start)
  {
    var chunkEnd := FindChunkEnd(g, cfg, start);
    var text := Concat(g[start..chunkEnd]);
    assert text == Window(g, start, chunkEnd);
    if cfg.trimChunks {
      text := Trim(text);
    }
    chunk := TextChunk(text, start, chunkEnd, ChunkMetadata(None, ONE_F64));
    next := NextStart(|g|, start, chunkEnd, cfg.overlap);
    ChunksFromUnfold(g, cfg, start, chunk);
  }

  /**
   * The configuration the loop works with: a chunk size of 0, on which the
   * source's loop makes no progress, is taken as 1; nothing else changes.
   */
  function Effective(cfg: TextConfig): (e: TextConfig)
    ensures e.chunkSize > 0
    ensures cfg.chunkSize > 0 ==> e == cfg
    ensures e.(chunkSize := cfg.chunkSize) == cfg
  {
    cfg.(chunkSize := Max(cfg.chunkSize, 1))
  }

  /** Moving the next chunk from the chunks still to come to the chunks collected keeps the whole. */
  lemma Regrouped(done: seq<TextChunk>, c: TextChunk, later: seq<TextChunk>, rest: seq<TextChunk>, all: seq<TextChunk>)
    requires done + rest == all && [c] + later == rest
    ensures (done + [c]) + later == all
  {
    assert (done + [c]) + later == done + ([c] + later);
  }

  /** The chunking loop of `chunk_text_impl`, on any configuration the host passes. */
  method ChunkTextImpl(g: seq<seq<byte>>, cfg: TextConfig) returns (chunks: seq<TextChunk>)
    requires OneByte(g)
    ensures chunks == ChunkText(g, Effective(cfg))
  {
    var eff := Effective(cfg);
    chunks := [];
    var start := 0;
    while start < |g|
      invariant start <= |g|
      invariant chunks + ChunksFrom(g, eff, start) == ChunkText(g, eff)
      decreases |g| - start
    {
      var chunk, next := NextChunk(g, eff, start);
      Regrouped(chunks, chunk, ChunksFrom(g, eff, next), ChunksFrom(g, eff, start), ChunkText(g, eff));
      chunks := chunks + [chunk];
      start := next;
    }
  }

  // ---------------------------------------------------------------------
  // What every chunk satisfies.

  /**
   * The chunk is cut where the source cuts it: at the hard end when the
   * window reaches the end of the text or holds no boundary, otherwise at
   * the last boundary of the window.
   */
  ghost predicate CutAtBoundary(g: seq<seq<byte>>, cfg: TextConfig, c: TextChunk)
    requires c.start <= HardEnd(|g|, c.start, cfg) <= |g|
  {
    var hard := HardEnd(|g|, c.start, cfg);
    var w := Window(g, c.start, hard);
    if hard == |g| then c.end == hard
    else if forall e :: !BoundaryEnd(w, e) then c.end == hard
    else
      c.start < c.end && BoundaryEnd(w, c.end - c.start)
      && forall e :: c.end - c.start < e ==> !BoundaryEnd(w, e)
  }

  ghost predicate ValidChunk(g: seq<seq<byte>>, cfg: TextConfig, c: TextChunk)
  {
    && c.start < c.end <= |g|
    && c.end - c.start <= cfg.chunkSize
    && c.text == ChunkTextOf(g, cfg, c.start, c.end)
    && c.metadata == DEFAULT_METADATA
    && CutAtBoundary(g, cfg, c)
  }

  lemma SnapEndCuts(g: seq<seq<byte>>, cfg: TextConfig, start: nat)
    requires OneByte(g) && cfg.chunkSize > 0 && start < |g|
    ensures var e := SnapEnd(g, cfg, start);
      ValidChunk(g, cfg, TextChunk(ChunkTextOf(g, cfg, start, e), start, e, DEFAULT_METADATA))
  {
    var hard := HardEnd(|g|, start, cfg);
    LastMatchEndIsLastBoundary(Window(g, start, hard));
  }

  /** `c` is the chunk the loop produces right after `p`. */
  ghost predicate Consecutive(g: seq<seq<byte>>, cfg: TextConfig, p: TextChunk, c: TextChunk)
  {
    p.start < p.end < |g| && c.start == NextStart(|g|, p.start, p.end, cfg.overlap)
  }

  /** Facts about the chunks produced from cursor `start`. */
  ghost predicate ChunksFromFacts(g: seq<seq<byte>>, cfg: TextConfig, start: nat, cs: seq<TextChunk>)
  {
    && (forall i :: 0 <= i < |cs| ==> ValidChunk(g, cfg, cs[i]) && start <= cs[i].start)
    && (cs == [] <==> start == |g|)
    && (cs != [] ==> cs[0].start == start && cs[|cs| - 1].end == |g|)
    && (forall i, j :: 0 <= i && j == i + 1 && j < |cs| ==> Consecutive(g, cfg, cs[i], cs[j]))
  }

  /** Every chunk of `[c] + rest` is valid and starts at `start` or later. */
  lemma {:induction false} ConsValid(g: seq<seq<byte>>, cfg: TextConfig, start: nat, c: TextChunk, rest: seq<TextChunk>)
    requires ValidChunk(g, cfg, c) && c.start == start
    requires forall i :: 0 <= i < |rest| ==> ValidChunk(g, cfg, rest[i]) && start <= rest[i].start
    ensures forall i :: 0 <= i < |[c] + rest| ==> ValidChunk(g, cfg, ([c] + rest)[i]) && start <= ([c] + rest)[i].start
  {
    var cs := [c] + rest;
    forall i | 0 <= i < |cs|
      ensures ValidChunk(g, cfg, cs[i]) && start <= cs[i].start
    {
      if i > 0 {
        assert cs[i] == rest[i - 1];
      }
    }
  }

  /** A valid chunk at `start` followed by the chunks from the next cursor keeps the facts. */
  lemma {:induction false} ChunksFromCons(g: seq<seq<byte>>, cfg: TextConfig, start: nat, c: TextChunk,
                                          n: nat, rest: seq<TextChunk>)
    requires start < |g| && ValidChunk(g, cfg, c) && c.start == start
    requires n == NextStart(|g|, start, c.end, cfg.overlap)
    requires ChunksFromFacts(g, cfg, n, rest)
    ensures ChunksFromFacts(g, cfg, start, [c] + rest)
  {
    var cs := [c] + rest;
    ConsValid(g, cfg, start, c, rest);
    forall i, j | 0 <= i && j == i + 1 && j < |cs|
      ensures Consecutive(g, cfg, cs[i], cs[j])
    {
      if i == 0 {
        assert rest != [];
      } else {
        assert cs[i] == rest[i - 1] && cs[j] == rest[j - 1];
      }
    }
  }

  lemma {:induction false} ChunksFromValid(g: seq<seq<byte>>, cfg: TextConfig, start: nat)
    requires OneByte(g) && cfg.chunkSize > 0 && start <= |g|
    decreases |g| - start
    ensures ChunksFromFacts(g, cfg, start, ChunksFrom(g, cfg, start))
  {
    if start < |g| {
      var e := SnapEnd(g, cfg, start);
      var n := NextStart(|g|, start, e, cfg.overlap);
      var c := TextChunk(ChunkTextOf(g, cfg, start, e), start, e, DEFAULT_METADATA);
      assert ChunksFrom(g, cfg, start) == [c] + ChunksFrom(g, cfg, n);
      SnapEndCuts(g, cfg, start);
      ChunksFromValid(g, cfg, n);
      ChunksFromCons(g, cfg, start, c, n, ChunksFrom(g, cfg, n));
    }
  }

  /**
   * Every chunk of the text is well formed: `start < end <= len`, at most
   * `chunk_size` graphemes, cut at the last sentence boundary of its window
   * (or at the hard end), with the concatenated (and, if asked, trimmed)
   * text of `graphemes[start..end]` and the default metadata. Empty text
   * gives no chunks, and only empty text does.
   */
  lemma ChunkTextValid(g: seq<seq<byte>>, cfg: TextConfig)
    requires OneByte(g) && cfg.chunkSize > 0
    ensures forall c :: c in ChunkText(g, cfg) ==> ValidChunk(g, cfg, c)
    ensures ChunkText(g, cfg) == [] <==> g == []
  {
    ChunksFromValid(g, cfg, 0);
  }

  /**
   * The chunks cover the text from 0 to `len`; each starts strictly after
   * the previous one and no later than where the previous one ended.
   */
  lemma ChunkTextCovers(g: seq<seq<byte>>, cfg: TextConfig)
    requires OneByte(g) && cfg.chunkSize > 0 && g != []
    ensures var cs := ChunkText(g, cfg);
      cs != [] && cs[0].start == 0 && cs[|cs| - 1].end == |g|
      && forall i, j :: 0 <= i && j == i + 1 && j < |cs| ==>
           cs[i].start < cs[j].start <= cs[i].end < |g|
  {
    var cs := ChunkText(g, cfg);
    ChunksFromValid(g, cfg, 0);
    forall i, j | 0 <= i && j == i + 1 && j < |cs|
      ensures cs[j].start <= cs[i].end
    {
      assert Consecutive(g, cfg, cs[i], cs[j]);
    }
  }

  /** Without overlap the chunks tile the text: each starts where the previous ended. */
  lemma ChunkTextTiles(g: seq<seq<byte>>, cfg: TextConfig)
    requires OneByte(g) && cfg.chunkSize > 0 && cfg.overlap == 0
    ensures var cs := ChunkText(g, cfg);
      forall i, j :: 0 <= i && j == i + 1 && j < |cs| ==> cs[j].start == cs[i].end
  {
    ChunksFromValid(g, cfg, 0);
  }

  /**
   * With a positive overlap each chunk starts `overlap` graphemes before
   * the previous end (or one grapheme after the previous start, whichever
   * is later), and so strictly before the previous end when windows hold
   * at least two graphemes.
   */
  lemma ChunkTextOverlaps(g: seq<seq<byte>>, cfg: TextConfig)
    requires OneByte(g) && cfg.chunkSize >= 2 && cfg.overlap > 0
    ensures var cs := ChunkText(g, cfg);
      forall i, j :: 0 <= i && j == i + 1 && j < |cs| ==>
        cs[j].start == Max(cs[i].end - cfg.overlap, cs[i].start + 1) && cs[j].start < cs[i].end
  {
    var cs := ChunkText(g, cfg);
    ChunksFromValid(g, cfg, 0);
    forall i, j | 0 <= i && j == i + 1 && j < |cs|
      ensures cs[j].start < cs[i].end
    {
      var p := cs[i];
      assert ValidChunk(g, cfg, p) && Consecutive(g, cfg, p, cs[j]);
      var hard := HardEnd(|g|, p.start, cfg);
      var w := Window(g, p.start, hard);
      if hard != |g| && !(forall e :: !BoundaryEnd(w, e)) {
        BoundaryEndAtLeastTwo(w, p.end - p.start);
      }
    }
  }

  // ---------------------------------------------------------------------
  // The cursor step as written: `start = chunk_end - overlap`.

  /** The cursor after a chunk in the source, as an unbounded integer. */
  function NextStartAsWritten(chunkEnd: nat, overlap: nat): int
  {
    chunkEnd - overlap
  }

  /**
   * Once a window reaches the end of the text, the source's cursor goes
   * back to `len - overlap`, which is a fixed point below `len` when
   * `0 < overlap <= min(len, chunk_size)`: the loop repeats the same last
   * chunk forever.
   */
  lemma AsWrittenFinalChunkRepeats(g: seq<seq<byte>>, cfg: TextConfig, start: nat)
    requires OneByte(g) && cfg.chunkSize > 0 && start < |g|
    requires HardEnd(|g|, start, cfg) == |g|
    requires 0 < cfg.overlap <= |g| && cfg.overlap <= cfg.chunkSize
    ensures var s := NextStartAsWritten(SnapEnd(g, cfg, start), cfg.overlap);
      0 <= s < |g| && HardEnd(|g|, s, cfg) == |g|
      && NextStartAsWritten(SnapEnd(g, cfg, s), cfg.overlap) == s
  {
  }

  /** Ten one-byte graphemes "abcdefghij". */
  function Letters(): (g: seq<seq<byte>>)
    ensures OneByte(g) && |g| == 10
  {
    [[0x61], [0x62], [0x63], [0x64], [0x65], [0x66], [0x67], [0x68], [0x69], [0x6A]]
  }

  /**
   * "abc" with `chunk_size = 5, overlap = 1`: the first chunk already
   * reaches the end, and the source's cursor then stays at 2 forever.
   */
  lemma AsWrittenNeverEnds()
    ensures var g := Letters()[..3]; var cfg := TextConfig(5, 1, false, true, true);
      OneByte(g) && SnapEnd(g, cfg, 0) == 3 && NextStartAsWritten(3, 1) == 2
      && SnapEnd(g, cfg, 2) == 3
  {
  }

  /**
   * Ten letters with `chunk_size = 2, overlap = 2`: the first window holds
   * no boundary, ends at 2, and the source's cursor returns to 0.
   */
  lemma AsWrittenStallsMidText()
    ensures var g := Letters(); var cfg := TextConfig(2, 2, false, true, true);
      SnapEnd(g, cfg, 0) == 2 && NextStartAsWritten(2, 2) == 0
  {
    var g := Letters();
    var w := Window(g, 0, 2);
    assert w == [0x61, 0x62];
    assert MatchEnds(w, 1) == [];
  }

  /**
   * "abc" with `chunk_size = 5, overlap = 4`: `chunk_end - overlap` is
   * 3 - 4, below zero, which `usize` cannot hold.
   */
  lemma AsWrittenUnderflows()
    ensures var g := Letters()[..3]; var cfg := TextConfig(5, 4, false, true, true);
      SnapEnd(g, cfg, 0) == 3 && NextStartAsWritten(3, 4) < 0
  {
  }

  /**
   * A chunk size of 0, which `read_config` passes through: every window
   * is empty and holds no boundary, so the chunk at the cursor ends where
   * it starts, and the source's cursor `start - overlap` never moves
   * forward. With overlap 0 the loop pushes the empty chunk forever; with
   * an overlap above the cursor it goes below zero.
   */
  lemma AsWrittenZeroSizeStalls(g: seq<seq<byte>>, cfg: TextConfig, start: nat)
    requires OneByte(g) && cfg.chunkSize == 0 && start < |g|
    ensures HardEnd(|g|, start, cfg) == start && Window(g, start, start) == []
    ensures LastMatchEnd(Window(g, start, start)).None?
    ensures NextStartAsWritten(HardEnd(|g|, start, cfg), cfg.overlap) <= start
    ensures cfg.overlap == 0 ==> NextStartAsWritten(HardEnd(|g|, start, cfg), cfg.overlap) == start
    ensures start < cfg.overlap ==> NextStartAsWritten(HardEnd(|g|, start, cfg), cfg.overlap) < 0
  {
    assert g[start..start] == [];
  }

  /**
   * With a chunk size of 0 taken as 1, chunking always ends and covers
   * the text: every chunk holds at least one grapheme, and exactly one
   * when the configured size was 0.
   */
  lemma EffectiveChunkingCovers(g: seq<seq<byte>>, cfg: TextConfig)
    requires OneByte(g) && g != []
    ensures var cs := ChunkText(g, Effective(cfg));
      && cs != [] && cs[0].start == 0 && cs[|cs| - 1].end == |g|
      && (forall i :: 0 <= i < |cs| ==> cs[i].start < cs[i].end)
      && (cfg.chunkSize == 0 ==> forall i :: 0 <= i < |cs| ==> cs[i].end == cs[i].start + 1)
  {
    var cs := ChunkText(g, Effective(cfg));
    ChunkTextCovers(g, Effective(cfg));
    ChunkTextValid(g, Effective(cfg));
    forall i | 0 <= i < |cs|
      ensures cs[i].start < cs[i].end
      ensures cfg.chunkSize == 0 ==> cs[i].end == cs[i].start + 1
    {
      assert cs[i] in cs;
    }
  }

  /** The same inputs under the corrected step end after a bounded number of chunks. */
  lemma CorrectedEndsOnWitnesses()
    ensures |ChunkText(Letters()[..3], TextConfig(5, 1, false, true, true))| == 1
    ensures |ChunkText(Letters()[..3], TextConfig(5, 4, false, true, true))| == 1
  {
    var g := Letters()[..3];
    assert ChunkText(g, TextConfig(5, 1, false, true, true)) == ChunksFrom(g, TextConfig(5, 1, false, true, true), 0);
    assert ChunksFrom(g, TextConfig(5, 1, false, true, true), 3) == [];
    assert ChunksFrom(g, TextConfig(5, 4, false, true, true), 3) == [];
  }
}
