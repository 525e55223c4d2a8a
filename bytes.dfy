/**
 * The flat byte buffer that every processor exposes to its caller, and the
 * fixed little-endian encodings written into it.
 *
 * Integer fields are 32-bit on the wire (`x as i32` of a wasm32 `usize`),
 * so an unbounded count or offset is written modulo 2^32 and read back as
 * the unsigned pattern. Floating-point payloads are never computed on and
 * are carried as opaque 32- and 64-bit patterns.
 */
module Bytes {
  import opened Wrappers

  /** An octet of the linear memory. */
  newtype byte = b: int | 0 <= b < 256

  const TWO32: nat := 0x1_0000_0000

  /** The allocation size for a request: `(size + 7) & !7`. */
  function Round8(n: nat): (r: nat)
    ensures r % 8 == 0 && n <= r < n + 8
  {
    (n + 7) / 8 * 8
  }

  /** `b` followed by zeros up to the next multiple of 8: an allocation of `|b|` bytes once `b` is written into it. */
  function Padded(b: seq<byte>): (p: seq<byte>)
    ensures |p| == Round8(|b|)
  {
    b + Zeros(Round8(|b|) - |b|)
  }

  /** Writing `b` at the start of a fresh allocation of its size leaves the padded image of `b`. */
  lemma FillsAllocation(base: seq<byte>, b: seq<byte>, room: nat)
    requires room == Round8(|b|)
    ensures base + b + Zeros(room - |b|) == base + Padded(b)
  {
    Assoc(base, b, Zeros(room - |b|));
  }

  /** `n` zero bytes, as `resize` fills a grown buffer. */
  function Zeros(n: nat): (z: seq<byte>)
    ensures |z| == n
  {
    seq(n, _ => 0)
  }

  lemma ZerosSplit(a: nat, b: nat)
    ensures Zeros(a + b) == Zeros(a) + Zeros(b)
  {
  }

  lemma ZerosCut(n: nat, a: nat)
    requires a <= n
    ensures Zeros(n) == Zeros(a) + Zeros(n - a)
  {
  }

  lemma Assoc<T>(a: seq<T>, b: seq<T>, c: seq<T>)
    ensures a + (b + c) == a + b + c
  {
  }

  // ---------------------------------------------------------------------
  // Integer fields: four little-endian bytes of the value modulo 2^32.

  /** The value of four base-256 digits, least significant first. */
  function Compose(b0: nat, b1: nat, b2: nat, b3: nat): (n: nat)
    requires b0 < 256 && b1 < 256 && b2 < 256 && b3 < 256
    ensures n < TWO32
  {
    b0 + 256 * (b1 + 256 * (b2 + 256 * b3))
  }

  /** Base-256 digit `k` of `n`, least significant first. */
  function Digit(n: nat, k: nat): (d: nat)
    ensures d < 256
  {
    if k == 0 then n % 256 else Digit(n / 256, k - 1)
  }

  /** The low four base-256 digits of `n`: its 32-bit pattern, little-endian. */
  function U32Bytes(n: nat): (b: seq<byte>)
    ensures |b| == 4
  {
    [Digit(n, 0) as byte, Digit(n, 1) as byte, Digit(n, 2) as byte, Digit(n, 3) as byte]
  }

  function U32Of(b: seq<byte>): (n: nat)
    requires |b| == 4
    ensures n < TWO32
  {
    Compose(b[0] as int, b[1] as int, b[2] as int, b[3] as int)
  }

  /** The four digits, one quotient by 256 at a time. */
  lemma DigitSteps(n: nat)
    ensures Digit(n, 0) == n % 256
    ensures Digit(n, 1) == n / 256 % 256
    ensures Digit(n, 2) == n / 256 / 256 % 256
    ensures Digit(n, 3) == n / 256 / 256 / 256 % 256
  {
    assert Digit(n, 3) == Digit(n / 256, 2) == Digit(n / 256 / 256, 1) == Digit(n / 256 / 256 / 256, 0);
    assert Digit(n, 2) == Digit(n / 256, 1) == Digit(n / 256 / 256, 0);
    assert Digit(n, 1) == Digit(n / 256, 0);
  }

  /** Reading an integer field gives back the value written, modulo 2^32. */
  lemma {:induction false} U32RoundTrip(n: nat)
    ensures U32Of(U32Bytes(n)) == n % TWO32
  {
    DigitSteps(n);
    var q1 := n / 256;
    var q2 := q1 / 256;
    var q3 := q2 / 256;
    var q4 := q3 / 256;
    assert n == n % 256 + 256 * q1;
    assert q1 == q1 % 256 + 256 * q2;
    assert q2 == q2 % 256 + 256 * q3;
    assert q3 == q3 % 256 + 256 * q4;
    var c := Compose(n % 256, q1 % 256, q2 % 256, q3 % 256);
    assert n == c + TWO32 * q4;
  }

  lemma U32OfFits(n: nat)
    requires n < TWO32
    ensures U32Of(U32Bytes(n)) == n
  {
    U32RoundTrip(n);
    ModSmall(n);
  }

  lemma ModSmall(n: nat)
    requires n < TWO32
    ensures n % TWO32 == n
  {
  }

  /** Writing back a decoded field reproduces its four bytes. */
  lemma {:induction false} U32BytesOf(b: seq<byte>)
    requires |b| == 4
    ensures U32Bytes(U32Of(b)) == b
  {
    var b0, b1, b2, b3 := b[0] as int, b[1] as int, b[2] as int, b[3] as int;
    var m := U32Of(b);
    DigitSteps(m);
    var q1 := b1 + 256 * (b2 + 256 * b3);
    assert m == b0 + 256 * q1;
    assert m / 256 == q1;
    var q2 := b2 + 256 * b3;
    assert q1 / 256 == q2;
    assert q2 / 256 == b3;
  }

  /** A field reads as zero exactly when all four of its bytes are zero. */
  lemma U32OfZero(b: seq<byte>)
    requires |b| == 4
    ensures U32Of(b) == 0 <==> b == [0, 0, 0, 0]
  {
    if U32Of(b) == 0 {
      assert b[0] == 0 && b[1] == 0 && b[2] == 0 && b[3] == 0;
    }
  }

  /** A flag as the host writes it: 1 or 0 as a 32-bit integer. */
  function FlagBytes(b: bool): (w: seq<byte>)
    ensures |w| == 4 && (w == [0, 0, 0, 0] <==> !b)
  {
    var w := U32Bytes(if b then 1 else 0);
    U32OfFits(if b then 1 else 0);
    U32OfZero(w);
    w
  }

  /** A `usize` widened to `u64`: the 32-bit pattern followed by four zero bytes. */
  function U64Bytes(n: nat): (b: seq<byte>)
    ensures |b| == 8
  {
    U32Bytes(n) + Zeros(4)
  }

  function U64Of(b: seq<byte>): nat
    requires |b| == 8
  {
    U32Of(b[..4]) + TWO32 * U32Of(b[4..])
  }

  lemma {:induction false} U64RoundTrip(n: nat)
    ensures U64Of(U64Bytes(n)) == n % TWO32
  {
    var b := U64Bytes(n);
    assert b[..4] == U32Bytes(n);
    assert b[4..] == Zeros(4) == [0, 0, 0, 0];
    U32RoundTrip(n);
  }

  // ---------------------------------------------------------------------
  // Bit patterns of f64 values (as unsigned integers), little-endian.

  const TWO64: nat := TWO32 * TWO32

  /** The eight bytes of a 64-bit pattern: low word, then high word. */
  function Bits64Bytes(v: nat): (b: seq<byte>)
    ensures |b| == 8
  {
    U32Bytes(v % TWO32) + U32Bytes(v / TWO32)
  }

  lemma SplitWords(v: nat)
    ensures v % TWO32 + TWO32 * (v / TWO32 % TWO32) == v % TWO64
  {
    var lo, hi := v % TWO32, v / TWO32;
    assert v == lo + TWO32 * hi;
    var q := hi / TWO32;
    assert hi == hi % TWO32 + TWO32 * q;
    assert v == (lo + TWO32 * (hi % TWO32)) + TWO64 * q;
    assert 0 <= lo + TWO32 * (hi % TWO32) < TWO64;
  }

  /** Reading a 64-bit pattern gives back the value written, modulo 2^64. */
  lemma Bits64RoundTrip(v: nat)
    ensures U64Of(Bits64Bytes(v)) == v % TWO64
  {
    var b := Bits64Bytes(v);
    assert b[..4] == U32Bytes(v % TWO32);
    assert b[4..] == U32Bytes(v / TWO32);
    U32RoundTrip(v % TWO32);
    ModSmall(v % TWO32);
    U32RoundTrip(v / TWO32);
    SplitWords(v);
  }

  // ---------------------------------------------------------------------
  // Runs of fields: tensor dimensions and f32 payloads.

  function U32Seq(ns: seq<nat>): (b: seq<byte>)
    ensures |b| == 4 * |ns|
  {
    if ns == [] then [] else U32Bytes(ns[0]) + U32Seq(ns[1..])
  }

  function U32SeqOf(b: seq<byte>): (ns: seq<nat>)
    requires |b| % 4 == 0
    ensures 4 * |ns| == |b|
    ensures Fits32(ns)
  {
    if b == [] then [] else [U32Of(b[..4])] + U32SeqOf(b[4..])
  }

  predicate Fits32(ns: seq<nat>)
  {
    forall i :: 0 <= i < |ns| ==> ns[i] < TWO32
  }

  lemma U32SeqOfCons(x: seq<byte>, rest: seq<byte>)
    requires |x| == 4 && |rest| % 4 == 0
    ensures U32SeqOf(x + rest) == [U32Of(x)] + U32SeqOf(rest)
  {
    assert (x + rest)[..4] == x && (x + rest)[4..] == rest;
  }

  lemma {:induction false} U32SeqRoundTrip(ns: seq<nat>)
    requires Fits32(ns)
    ensures U32SeqOf(U32Seq(ns)) == ns
  {
    if ns != [] {
      var head, tail := U32Bytes(ns[0]), U32Seq(ns[1..]);
      assert U32Seq(ns) == head + tail;
      U32SeqOfCons(head, tail);
      U32OfFits(ns[0]);
      U32SeqRoundTrip(ns[1..]);
      assert ns == [ns[0]] + ns[1..];
    }
  }

  lemma {:induction false} U32SeqSnoc(ns: seq<nat>, n: nat)
    ensures U32Seq(ns + [n]) == U32Seq(ns) + U32Bytes(n)
  {
    if ns == [] {
      assert ns + [n] == [n];
    } else {
      assert (ns + [n])[1..] == ns[1..] + [n];
      U32SeqSnoc(ns[1..], n);
    }
  }

  // ---------------------------------------------------------------------
  // Views of a buffer: bytes in place, splices, NUL-terminated strings.

  /** `data` begins with `prefix`, as `<[u8]>::starts_with` tests a file header. */
  predicate StartsWith(data: seq<byte>, prefix: seq<byte>)
  {
    |prefix| <= |data| && data[..|prefix|] == prefix
  }

  /** `data` sits in `mem` at offset `off`. */
  predicate At(mem: seq<byte>, off: nat, data: seq<byte>)
  {
    off + |data| <= |mem| && mem[off..off + |data|] == data
  }

  /** `mem` with `data` copied over it at offset `off`, byte by byte. */
  function Splice(mem: seq<byte>, off: nat, data: seq<byte>): (r: seq<byte>)
    requires off + |data| <= |mem|
    ensures |r| == |mem|
    decreases |data|
  {
    if data == [] then mem else Splice(mem[off := data[0]], off + 1, data[1..])
  }

  /** Copying over a part of known extent replaces exactly that part. */
  lemma {:induction false} SpliceInside(prefix: seq<byte>, a: seq<byte>, d: seq<byte>, rest: seq<byte>)
    requires |d| == |a|
    ensures Splice(prefix + a + rest, |prefix|, d) == prefix + d + rest
    decreases |d|
  {
    if d != [] {
      assert (prefix + a + rest)[|prefix| := d[0]] == (prefix + [d[0]]) + a[1..] + rest;
      SpliceInside(prefix + [d[0]], a[1..], d[1..], rest);
      assert prefix + [d[0]] + d[1..] + rest == prefix + d + rest;
    }
  }

  /** Writing right after `written`, over the front of a zeroed tail, extends `written`. */
  lemma AppendStored(base: seq<byte>, written: seq<byte>, d: seq<byte>, n: nat)
    requires |d| <= n
    ensures Splice(base + written + Zeros(n), |base| + |written|, d) == base + (written + d) + Zeros(n - |d|)
  {
    SpliceOverZeros(base + written, d, n);
    Assoc(base + written, d, Zeros(n - |d|));
    Assoc(base, written, d);
  }

  /** Writing over the front of a zeroed tail leaves the rest of the zeros. */
  lemma SpliceOverZeros(prefix: seq<byte>, d: seq<byte>, n: nat)
    requires |d| <= n
    ensures Splice(prefix + Zeros(n), |prefix|, d) == prefix + (d + Zeros(n - |d|))
  {
    ZerosCut(n, |d|);
    Assoc(prefix, Zeros(|d|), Zeros(n - |d|));
    SpliceInside(prefix, Zeros(|d|), d, Zeros(n - |d|));
    Assoc(prefix, d, Zeros(n - |d|));
  }

  /** The spliced bytes are in place and every other byte is unchanged. */
  lemma SpliceFacts(mem: seq<byte>, off: nat, data: seq<byte>)
    requires off + |data| <= |mem|
    ensures Splice(mem, off, data) == mem[..off] + data + mem[off + |data|..]
    ensures At(Splice(mem, off, data), off, data)
  {
    assert mem == mem[..off] + mem[off..off + |data|] + mem[off + |data|..];
    SpliceInside(mem[..off], mem[off..off + |data|], data, mem[off + |data|..]);
    var r := Splice(mem, off, data);
    assert r[off..off + |data|] == data;
  }

  lemma AtAppend(mem: seq<byte>, off: nat, data: seq<byte>, more: seq<byte>)
    requires At(mem, off, data)
    ensures At(mem + more, off, data)
  {
    assert (mem + more)[off..off + |data|] == mem[off..off + |data|];
  }

  lemma AtSplit(mem: seq<byte>, off: nat, a: seq<byte>, b: seq<byte>)
    requires At(mem, off, a + b)
    ensures At(mem, off, a) && At(mem, off + |a|, b)
  {
    assert mem[off..off + |a|] == (a + b)[..|a|];
    assert mem[off + |a|..off + |a| + |b|] == (a + b)[|a|..];
  }

  lemma AtConcat(mem: seq<byte>, off: nat, a: seq<byte>, b: seq<byte>)
    requires At(mem, off, a) && At(mem, off + |a|, b)
    ensures At(mem, off, a + b)
  {
    assert mem[off..off + |a| + |b|] == mem[off..off + |a|] + mem[off + |a|..off + |a| + |b|];
  }

  lemma AtSuffix(prefix: seq<byte>, data: seq<byte>)
    ensures At(prefix + data, |prefix|, data)
  {
    assert (prefix + data)[|prefix|..|prefix| + |data|] == data;
  }

  lemma AtSplice(mem: seq<byte>, off: nat, data: seq<byte>, p: nat, d: seq<byte>)
    requires off + |data| <= |mem| && At(mem, p, d)
    requires p + |d| <= off || off + |data| <= p
    ensures At(Splice(mem, off, data), p, d)
  {
    var r := Splice(mem, off, data);
    SpliceFacts(mem, off, data);
    assert forall i :: p <= i < p + |d| ==> r[i] == mem[i];
    assert r[p..p + |d|] == mem[p..p + |d|];
  }

  lemma AtIndex(mem: seq<byte>, off: nat, data: seq<byte>, i: nat)
    requires At(mem, off, data) && i < |data|
    ensures mem[off + i] == data[i]
  {
    assert mem[off..off + |data|][i] == data[i];
  }

  // ---------------------------------------------------------------------
  // NUL-terminated strings.

  predicate NoNul(s: seq<byte>)
  {
    forall i :: 0 <= i < |s| ==> s[i] != 0
  }

  /** The first zero byte at or after `i`, scanning forward as `read_string` does. */
  function NulFrom(mem: seq<byte>, i: nat): (r: Option<nat>)
    decreases |mem| - i
    ensures r.Some? ==> i <= r.value < |mem| && mem[r.value] == 0
    ensures r.Some? ==> forall j :: i <= j < r.value ==> mem[j] != 0
    ensures r.None? ==> forall j :: i <= j < |mem| ==> mem[j] != 0
  {
    if i >= |mem| then None
    else if mem[i] == 0 then Some(i)
    else NulFrom(mem, i + 1)
  }

  /**
   * The string that starts at `ptr`: the bytes up to the first zero byte,
   * or None when no zero byte follows `ptr` inside the buffer (the source
   * then indexes past the end of the buffer and faults).
   */
  function CStringAt(mem: seq<byte>, ptr: nat): (r: Option<seq<byte>>)
    ensures r.Some? ==> NoNul(r.value) && At(mem, ptr, r.value + [0])
    ensures r.None? <==> forall j :: ptr <= j < |mem| ==> mem[j] != 0
  {
    match NulFrom(mem, ptr)
    case None => None
    case Some(j) =>
      assert mem[ptr..j + 1] == mem[ptr..j] + [0];
      Some(mem[ptr..j])
  }

  /** A string written with its terminator is read back exactly, when it holds no zero byte. */
  lemma CStringRoundTrip(mem: seq<byte>, ptr: nat, s: seq<byte>)
    requires NoNul(s) && At(mem, ptr, s + [0])
    ensures CStringAt(mem, ptr) == Some(s)
  {
    forall j | ptr <= j < ptr + |s|
      ensures mem[j] != 0
    {
      AtIndex(mem, ptr, s + [0], j - ptr);
    }
    AtIndex(mem, ptr, s + [0], |s|);
    var r := NulFrom(mem, ptr);
    assert r == Some(ptr + |s|);
    AtSplit(mem, ptr, s, [0]);
  }

  /** The bytes a string write appends: the text, its terminator, zero padding to the next multiple of 8. */
  function StringImage(s: seq<byte>): seq<byte>
  {
    var t := s + [0];
    t + Zeros(Round8(|s| + 1) - |t|)
  }

  lemma {:induction false} StringImageSize(s: seq<byte>)
    ensures |StringImage(s)| == Round8(|s| + 1)
  {
  }

  /** Copying a string and its terminator over a zeroed region of the padded size leaves its image. */
  lemma {:induction false} StringStored(prefix: seq<byte>, s: seq<byte>, n: nat)
    requires n == Round8(|s| + 1)
    ensures Splice(prefix + Zeros(n), |prefix|, s + [0]) == prefix + StringImage(s)
  {
    SpliceOverZeros(prefix, s + [0], n);
  }

  /** A string without zero bytes reads back from where it was written. */
  lemma {:induction false} StringReadsBack(prefix: seq<byte>, s: seq<byte>)
    requires NoNul(s)
    ensures CStringAt(prefix + StringImage(s), |prefix|) == Some(s)
  {
    var mem := prefix + StringImage(s);
    var t := s + [0];
    var pad := Zeros(Round8(|s| + 1) - |t|);
    assert mem == prefix + (t + pad);
    AtSuffix(prefix, t + pad);
    AtSplit(mem, |prefix|, t, pad);
    CStringRoundTrip(mem, |prefix|, s);
  }

}
