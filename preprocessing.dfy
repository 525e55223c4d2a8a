/**
 * The image preprocessing pipeline of the inference module: decode,
 * optional resize, colour-space conversion, conversion to a channel-major
 * `f32` array, optional normalisation and optional layout change, each
 * stage returning the first error it meets.
 *
 * The image library (decoding, resize kernels, RGB and luma conversion) is
 * a parameter whose only known laws are the dimension and pixel-format
 * laws in `Lawful`. Floating-point arithmetic in the normalisation is also
 * a parameter; values are carried as their 32-bit patterns.
 */
module Preprocessing {
  import opened Wrappers
  import opened Bytes

  /** An `f32`, carried as its IEEE 754 bit pattern. */
  type F32 = bits: nat | bits < TWO32

  datatype PreprocessingError =
    | ImageError(message: string)
    | DimensionError(message: string)
    | FormatError(message: string)

  datatype ResizeOptions = ResizeOptions(width: nat, height: nat, filter: string)

  datatype NormalizeOptions = NormalizeOptions(mean: Option<seq<F32>>, std: Option<seq<F32>>, scale: Option<F32>)

  datatype PreprocessingOptions = PreprocessingOptions(
    resize: Option<ResizeOptions>,
    normalize: Option<NormalizeOptions>,
    colorSpace: Option<string>,
    layout: Option<string>)

  /** The resampling filters the resize method names select. */
  datatype FilterType = Nearest | Triangle | CatmullRom

  // ---------------------------------------------------------------------
  // Images.

  /** An 8-bit three-channel pixel; channel `c` is `p0`, `p1` or `p2`. */
  datatype Rgb = Rgb(p0: byte, p1: byte, p2: byte)

  /**
   * A decoded image. Pixels are stored by row: the pixel at `(x, y)` is
   * `rows[y][x]`. Every other pixel format is `OtherImage`.
   */
  datatype DynamicImage =
    | ImageRgb8(width: nat, height: nat, rgb: seq<seq<Rgb>>)
    | ImageLuma8(width: nat, height: nat, luma: seq<seq<byte>>)
    | OtherImage(width: nat, height: nat)

  predicate Rows<T>(rows: seq<seq<T>>, width: nat, height: nat)
  {
    |rows| == height && forall y :: 0 <= y < height ==> |rows[y]| == width
  }

  predicate WellFormed(img: DynamicImage)
  {
    match img
    case ImageRgb8(w, h, rows) => Rows(rows, w, h)
    case ImageLuma8(w, h, rows) => Rows(rows, w, h)
    case OtherImage(_, _) => true
  }

  predicate SameFormat(a: DynamicImage, b: DynamicImage)
  {
    (a.ImageRgb8? <==> b.ImageRgb8?) && (a.ImageLuma8? <==> b.ImageLuma8?)
  }

  /** The image library: decoding from bytes, exact resizing, and the two pixel conversions. */
  datatype ImageLibrary = ImageLibrary(
    load: seq<byte> -> Result<DynamicImage, string>,
    resizeExact: (DynamicImage, nat, nat, FilterType) -> DynamicImage,
    toRgb8: DynamicImage -> DynamicImage,
    toLuma8: DynamicImage -> DynamicImage)

  /**
   * What the pipeline relies on from the library: decoded images are well
   * formed, resizing gives exactly the requested size in the same pixel
   * format, and the conversions keep the size and give the named format.
   */
  ghost predicate Lawful(lib: ImageLibrary)
  {
    && (forall data :: lib.load(data).Ok? ==> WellFormed(lib.load(data).value))
    && (forall img, w, h, f :: WellFormed(img) ==>
          var r := lib.resizeExact(img, w, h, f);
          WellFormed(r) && r.width == w && r.height == h && SameFormat(r, img))
    && (forall img :: WellFormed(img) ==>
          var r := lib.toRgb8(img);
          r.ImageRgb8? && WellFormed(r) && r.width == img.width && r.height == img.height)
    && (forall img :: WellFormed(img) ==>
          var r := lib.toLuma8(img);
          r.ImageLuma8? && WellFormed(r) && r.width == img.width && r.height == img.height)
  }

  // ---------------------------------------------------------------------
  // Resizing.

  function FilterOf(name: string): Option<FilterType>
  {
    if name == "bilinear" then Some(Triangle)
    else if name == "nearest" then Some(Nearest)
    else if name == "bicubic" then Some(CatmullRom)
    else None
  }

  /**
   * `resize_image`: the method name selects the filter; any other name is
   * a format error. A resized image has exactly the requested size.
   */
  function ResizeImage(lib: ImageLibrary, img: DynamicImage, options: ResizeOptions): (r: Result<DynamicImage, PreprocessingError>)
    requires Lawful(lib) && WellFormed(img)
    ensures r.Ok? <==> options.filter in ["bilinear", "nearest", "bicubic"]
    ensures options.filter == "bilinear" ==> r == Ok(lib.resizeExact(img, options.width, options.height, Triangle))
    ensures options.filter == "nearest" ==> r == Ok(lib.resizeExact(img, options.width, options.height, Nearest))
    ensures options.filter == "bicubic" ==> r == Ok(lib.resizeExact(img, options.width, options.height, CatmullRom))
    ensures r.Ok? ==> WellFormed(r.value) && r.value.width == options.width && r.value.height == options.height
    ensures r.Ok? ==> SameFormat(r.value, img)
    ensures r.Err? ==> r.error == FormatError("Invalid resize method")
  {
    match FilterOf(options.filter)
    case Some(f) => Ok(lib.resizeExact(img, options.width, options.height, f))
    case None => Err(FormatError("Invalid resize method"))
  }

  // ---------------------------------------------------------------------
  // Colour space.

  /** The channel order reversed: `[p2, p1, p0]`. */
  function Reversed(p: Rgb): Rgb
  {
    Rgb(p.p2, p.p1, p.p0)
  }

  function ReversedRow(row: seq<Rgb>): seq<Rgb>
  {
    seq(|row|, x requires 0 <= x < |row| => Reversed(row[x]))
  }

  function ReversedRows(rows: seq<seq<Rgb>>): seq<seq<Rgb>>
  {
    seq(|rows|, y requires 0 <= y < |rows| => ReversedRow(rows[y]))
  }

  /**
   * The colour-space stage: no conversion when none is named, RGB and
   * grayscale through the library, BGR as RGB with every pixel's channels
   * reversed, and a format error carrying any other name.
   */
  function ColorConverted(lib: ImageLibrary, img: DynamicImage, colorSpace: Option<string>): (r: Result<DynamicImage, PreprocessingError>)
    requires Lawful(lib) && WellFormed(img)
    ensures colorSpace.None? ==> r == Ok(img)
    ensures colorSpace == Some("RGB") ==> r == Ok(lib.toRgb8(img))
    ensures colorSpace == Some("GRAYSCALE") ==> r == Ok(lib.toLuma8(img))
    ensures colorSpace.Some? && colorSpace.value !in ["RGB", "BGR", "GRAYSCALE"] ==> r == Err(FormatError(colorSpace.value))
    ensures r.Ok? ==> WellFormed(r.value) && r.value.width == img.width && r.value.height == img.height
    ensures colorSpace == Some("BGR") ==>
      r.Ok? && r.value.ImageRgb8? &&
      forall x, y :: 0 <= x < img.width && 0 <= y < img.height ==>
        r.value.rgb[y][x] == Reversed(lib.toRgb8(img).rgb[y][x])
  {
    match colorSpace
    case None => Ok(img)
    case Some(name) =>
      if name == "RGB" then Ok(lib.toRgb8(img))
      else if name == "BGR" then
        var rgb := lib.toRgb8(img);
        Ok(ImageRgb8(rgb.width, rgb.height, ReversedRows(rgb.rgb)))
      else if name == "GRAYSCALE" then Ok(lib.toLuma8(img))
      else Err(FormatError(name))
  }

  /** `convert_color_space`, with the BGR image filled pixel by pixel into a fresh buffer. */
  method ConvertColorSpace(lib: ImageLibrary, img: DynamicImage, colorSpace: Option<string>) returns (r: Result<DynamicImage, PreprocessingError>)
    requires Lawful(lib) && WellFormed(img)
    ensures r == ColorConverted(lib, img, colorSpace)
  {
    match colorSpace
    case None =>
      r := Ok(img);
    case Some(name) =>
      if name == "RGB" {
        r := Ok(lib.toRgb8(img));
      } else if name == "BGR" {
        var rgb := lib.toRgb8(img);
        var bgr := FillBgr(rgb.width, rgb.height, rgb.rgb);
        r := Ok(ImageRgb8(rgb.width, rgb.height, bgr));
      } else if name == "GRAYSCALE" {
        r := Ok(lib.toLuma8(img));
      } else {
        r := Err(FormatError(name));
      }
  }

  /** A `width` by `height` buffer of black pixels (`ImageBuffer::new`). */
  function BlankRows(width: nat, height: nat): (rows: seq<seq<Rgb>>)
    ensures Rows(rows, width, height)
  {
    seq(height, _ => seq(width, _ => Rgb(0, 0, 0)))
  }

  /** The BGR loop: every pixel of `rgb`, in row order, is put with its channels reversed. */
  method FillBgr(width: nat, height: nat, rgb: seq<seq<Rgb>>) returns (bgr: seq<seq<Rgb>>)
    requires Rows(rgb, width, height)
    ensures bgr == ReversedRows(rgb)
  {
    bgr := BlankRows(width, height);
    for y := 0 to height
      invariant Rows(bgr, width, height)
      invariant forall j :: 0 <= j < y ==> bgr[j] == ReversedRow(rgb[j])
    {
      for x := 0 to width
        invariant Rows(bgr, width, height)
        invariant forall j :: 0 <= j < y ==> bgr[j] == ReversedRow(rgb[j])
        invariant forall i :: 0 <= i < x ==> bgr[y][i] == Reversed(rgb[y][i])
      {
        bgr := bgr[y := bgr[y][x := Reversed(rgb[y][x])]];
      }
      assert bgr[y] == ReversedRow(rgb[y]);
    }
  }

  // ---------------------------------------------------------------------
  // Channel-major arrays.

  /** A three-dimensional array of shape `(channels, height, width)`: element `[c, y, x]` is `values[c][y][x]`. */
  datatype Array3 = Array3(channels: nat, height: nat, width: nat, values: seq<seq<seq<F32>>>)

  predicate Shaped(a: Array3)
  {
    && |a.values| == a.channels
    && (forall c :: 0 <= c < a.channels ==> Rows(a.values[c], a.width, a.height))
  }

  /** Channel `c` of a pixel (`pixel[c]`). */
  function Channel(p: Rgb, c: nat): byte
    requires c < 3
  {
    if c == 0 then p.p0 else if c == 1 then p.p1 else p.p2
  }

  /** The bit pattern of `b as f32`: exponent `127 + e` and the bits of `b` below its leading one. */
  function ByteToF32(b: byte): (bits: F32)
    ensures bits == 0 <==> b == 0
  {
    if b == 0 then 0
    else if b < 2 then Normal(0, 0)
    else if b < 4 then Normal(1, (b as nat - 2) * 0x40_0000)
    else if b < 8 then Normal(2, (b as nat - 4) * 0x20_0000)
    else if b < 16 then Normal(3, (b as nat - 8) * 0x10_0000)
    else if b < 32 then Normal(4, (b as nat - 16) * 0x8_0000)
    else if b < 64 then Normal(5, (b as nat - 32) * 0x4_0000)
    else if b < 128 then Normal(6, (b as nat - 64) * 0x2_0000)
    else Normal(7, (b as nat - 128) * 0x1_0000)
  }

  /** A positive normal `f32` with unbiased exponent `e` and fraction bits `m`. */
  function Normal(e: nat, m: nat): nat
  {
    (127 + e) * 0x80_0000 + m
  }

  /** The bit pattern of `255.0f32`, the divisor of the default scaling. */
  const F32_255: F32 := 0x437F_0000

  /** The conversion is exact and keeps the order of the bytes, as the bit patterns of positive floats do. */
  lemma ByteToF32Ordered(a: byte, b: byte)
    requires a < b
    ensures ByteToF32(a) < ByteToF32(b)
  {
  }

  lemma ByteToF32Values()
    ensures ByteToF32(1) == 0x3F80_0000
    ensures ByteToF32(255) == F32_255
  {
  }

  function Pow2(n: nat): nat
  {
    if n == 0 then 1 else 2 * Pow2(n - 1)
  }

  /**
   * The value of an `f32` bit pattern read as IEEE 754 single precision:
   * zero for the zero pattern and `(1 + m / 2^23) * 2^(x - 127)` for a
   * clear sign bit, an exponent field `x` in 127..254 and fraction bits
   * `m`. None for the patterns no byte converts to (negative, below one,
   * subnormal, infinite or NaN).
   */
  function F32Value(bits: F32): Option<real>
  {
    if bits == 0 then Some(0.0)
    else
      var x := bits / 0x80_0000 % 0x100;
      var m := bits % 0x80_0000;
      if bits / 0x8000_0000 == 0 && 127 <= x < 255 then
        Some((0x80_0000 + m) as real * Pow2(x - 127) as real / 0x80_0000 as real)
      else None
  }

  /** The sign, exponent and fraction fields of `Normal(e, m)` are 0, `127 + e` and `m`. */
  lemma NormalFields(e: nat, m: nat)
    requires e <= 7 && m < 0x80_0000
    ensures Normal(e, m) / 0x8000_0000 == 0
    ensures Normal(e, m) / 0x80_0000 % 0x100 == 127 + e
    ensures Normal(e, m) % 0x80_0000 == m
  {
  }

  /**
   * `b as f32` is exact: the pattern `ByteToF32` gives every byte has, read
   * as IEEE 754 single precision by `F32Value`, that byte's value.
   */
  lemma ByteToF32Exact(b: byte)
    ensures F32Value(ByteToF32(b)) == Some(b as real)
  {
    if b == 0 {
    } else if b < 2 {
      assert ByteToF32(b) == Normal(0, (b as nat - 1) * 0x80_0000);
      ExactWithExponent0(b as nat);
    } else if b < 4 {
      assert ByteToF32(b) == Normal(1, (b as nat - 2) * 0x40_0000);
      ExactWithExponent1(b as nat);
    } else if b < 8 {
      assert ByteToF32(b) == Normal(2, (b as nat - 4) * 0x20_0000);
      ExactWithExponent2(b as nat);
    } else if b < 16 {
      assert ByteToF32(b) == Normal(3, (b as nat - 8) * 0x10_0000);
      ExactWithExponent3(b as nat);
    } else if b < 32 {
      assert ByteToF32(b) == Normal(4, (b as nat - 16) * 0x8_0000);
      ExactWithExponent4(b as nat);
    } else if b < 64 {
      assert ByteToF32(b) == Normal(5, (b as nat - 32) * 0x4_0000);
      ExactWithExponent5(b as nat);
    } else if b < 128 {
      assert ByteToF32(b) == Normal(6, (b as nat - 64) * 0x2_0000);
      ExactWithExponent6(b as nat);
    } else {
      assert ByteToF32(b) == Normal(7, (b as nat - 128) * 0x1_0000);
      ExactWithExponent7(b as nat);
    }
  }

  /** A value in `[1, 2)` has exponent 0, and its bits below the leading one fill the top of the fraction. */
  lemma ExactWithExponent0(b: nat)
    requires 1 <= b < 2
    ensures F32Value(Normal(0, (b - 1) * 0x80_0000)) == Some(b as real)
  {
    assert Pow2(0) == 1;
    NormalFields(0, (b - 1) * 0x80_0000);
  }

  /** A value in `[2, 4)` has exponent 1, and its bits below the leading one fill the top of the fraction. */
  lemma ExactWithExponent1(b: nat)
    requires 2 <= b < 4
    ensures F32Value(Normal(1, (b - 2) * 0x40_0000)) == Some(b as real)
  {
    assert Pow2(1) == 2;
    NormalFields(1, (b - 2) * 0x40_0000);
  }

  /** A value in `[4, 8)` has exponent 2, and its bits below the leading one fill the top of the fraction. */
  lemma ExactWithExponent2(b: nat)
    requires 4 <= b < 8
    ensures F32Value(Normal(2, (b - 4) * 0x20_0000)) == Some(b as real)
  {
    assert Pow2(2) == 4;
    NormalFields(2, (b - 4) * 0x20_0000);
  }

  /** A value in `[8, 16)` has exponent 3, and its bits below the leading one fill the top of the fraction. */
  lemma ExactWithExponent3(b: nat)
    requires 8 <= b < 16
    ensures F32Value(Normal(3, (b - 8) * 0x10_0000)) == Some(b as real)
  {
    assert Pow2(3) == 8;
    NormalFields(3, (b - 8) * 0x10_0000);
  }

  /** A value in `[16, 32)` has exponent 4, and its bits below the leading one fill the top of the fraction. */
  lemma ExactWithExponent4(b: nat)
    requires 16 <= b < 32
    ensures F32Value(Normal(4, (b - 16) * 0x8_0000)) == Some(b as real)
  {
    assert Pow2(4) == 16;
    NormalFields(4, (b - 16) * 0x8_0000);
  }

  /** A value in `[32, 64)` has exponent 5, and its bits below the leading one fill the top of the fraction. */
  lemma ExactWithExponent5(b: nat)
    requires 32 <= b < 64
    ensures F32Value(Normal(5, (b - 32) * 0x4_0000)) == Some(b as real)
  {
    assert Pow2(5) == 32;
    NormalFields(5, (b - 32) * 0x4_0000);
  }

  /** A value in `[64, 128)` has exponent 6, and its bits below the leading one fill the top of the fraction. */
  lemma ExactWithExponent6(b: nat)
    requires 64 <= b < 128
    ensures F32Value(Normal(6, (b - 64) * 0x2_0000)) == Some(b as real)
  {
    assert Pow2(6) == 64;
    NormalFields(6, (b - 64) * 0x2_0000);
  }

  /** A value in `[128, 256)` has exponent 7, and its bits below the leading one fill the top of the fraction. */
  lemma ExactWithExponent7(b: nat)
    requires 128 <= b < 256
    ensures F32Value(Normal(7, (b - 128) * 0x1_0000)) == Some(b as real)
  {
    assert Pow2(7) == 128;
    NormalFields(7, (b - 128) * 0x1_0000);
  }

  function Planes3(c: nat, h: nat, w: nat, v: F32): seq<seq<seq<F32>>>
  {
    seq(c, _ => seq(h, _ => seq(w, _ => v)))
  }

  /** The values `image_to_array` produces: one plane per channel, element `[c, y, x]` from the pixel at `(x, y)`. */
  function ArrayOf(img: DynamicImage): (r: Result<Array3, PreprocessingError>)
    requires WellFormed(img)
    ensures r.Err? <==> img.OtherImage?
    ensures r.Err? ==> r.error == FormatError("Unsupported image format")
    ensures r.Ok? ==> Shaped(r.value) && r.value.height == img.height && r.value.width == img.width
    ensures img.ImageRgb8? ==> r.Ok? && r.value.channels == 3
    ensures img.ImageRgb8? && r.Ok? ==>
      forall c, y, x :: 0 <= c < 3 && 0 <= y < img.height && 0 <= x < img.width ==>
        r.value.values[c][y][x] == ByteToF32(Channel(img.rgb[y][x], c))
    ensures img.ImageLuma8? ==> r.Ok? && r.value.channels == 1
    ensures img.ImageLuma8? && r.Ok? ==>
      forall y, x :: 0 <= y < img.height && 0 <= x < img.width ==>
        r.value.values[0][y][x] == ByteToF32(img.luma[y][x])
  {
    match img
    case ImageRgb8(w, h, rows) =>
      Ok(Array3(3, h, w, seq(3, c requires 0 <= c < 3 =>
        seq(h, y requires 0 <= y < h =>
          seq(w, x requires 0 <= x < w => ByteToF32(Channel(rows[y][x], c)))))))
    case ImageLuma8(w, h, rows) =>
      Ok(Array3(1, h, w, [seq(h, y requires 0 <= y < h =>
        seq(w, x requires 0 <= x < w => ByteToF32(rows[y][x])))]))
    case OtherImage(_, _) => Err(FormatError("Unsupported image format"))
  }

  /** `image_to_array`: a zero array filled pixel by pixel, channel by channel. */
  method ImageToArray(img: DynamicImage) returns (r: Result<Array3, PreprocessingError>)
    requires WellFormed(img)
    ensures r == ArrayOf(img)
  {
    match img
    case ImageRgb8(w, h, rows) =>
      var values := FillRgb(img);
      SameValues(Array3(3, h, w, values), ArrayOf(img).value);
      r := Ok(Array3(3, h, w, values));
    case ImageLuma8(w, h, rows) =>
      var values := FillLuma(img);
      SameValues(Array3(1, h, w, values), ArrayOf(img).value);
      r := Ok(Array3(1, h, w, values));
    case OtherImage(_, _) =>
      r := Err(FormatError("Unsupported image format"));
  }

  /** The three planes of an RGB image, written pixel by pixel and channel by channel. */
  method FillRgb(img: DynamicImage) returns (values: seq<seq<seq<F32>>>)
    requires WellFormed(img) && img.ImageRgb8?
    ensures Shaped(Array3(3, img.height, img.width, values))
    ensures forall c, j, i :: 0 <= c < 3 && 0 <= j < img.height && 0 <= i < img.width ==>
      values[c][j][i] == ArrayOf(img).value.values[c][j][i]
  {
    var w, h, rows := img.width, img.height, img.rgb;
    ghost var target := ArrayOf(img).value.values;
    values := Planes3(3, h, w, 0);
    for y := 0 to h
      invariant Shaped(Array3(3, h, w, values))
      invariant forall c, j, i :: 0 <= c < 3 && 0 <= j < h && 0 <= i < w ==>
        values[c][j][i] == if j < y then target[c][j][i] else 0
    {
      for x := 0 to w
        invariant Shaped(Array3(3, h, w, values))
        invariant forall c, j, i :: 0 <= c < 3 && 0 <= j < h && 0 <= i < w ==>
          values[c][j][i] == if j < y || (j == y && i < x) then target[c][j][i] else 0
      {
        var pixel := rows[y][x];
        for c := 0 to 3
          invariant Shaped(Array3(3, h, w, values))
          invariant forall k, j, i :: 0 <= k < 3 && 0 <= j < h && 0 <= i < w ==>
            values[k][j][i] == if j < y || (j == y && (i < x || (i == x && k < c))) then target[k][j][i] else 0
        {
          values := values[c := values[c][y := values[c][y][x := ByteToF32(Channel(pixel, c))]]];
        }
      }
    }
  }

  /** The single plane of a grayscale image, written pixel by pixel. */
  method FillLuma(img: DynamicImage) returns (values: seq<seq<seq<F32>>>)
    requires WellFormed(img) && img.ImageLuma8?
    ensures Shaped(Array3(1, img.height, img.width, values))
    ensures forall j, i :: 0 <= j < img.height && 0 <= i < img.width ==>
      values[0][j][i] == ArrayOf(img).value.values[0][j][i]
  {
    var w, h, rows := img.width, img.height, img.luma;
    ghost var target := ArrayOf(img).value.values;
    values := Planes3(1, h, w, 0);
    for y := 0 to h
      invariant Shaped(Array3(1, h, w, values))
      invariant forall j, i :: 0 <= j < h && 0 <= i < w ==>
        values[0][j][i] == if j < y then target[0][j][i] else 0
    {
      for x := 0 to w
        invariant Shaped(Array3(1, h, w, values))
        invariant forall j, i :: 0 <= j < h && 0 <= i < w ==>
          values[0][j][i] == if j < y || (j == y && i < x) then target[0][j][i] else 0
      {
        values := values[0 := values[0][y := values[0][y][x := ByteToF32(rows[y][x])]]];
      }
    }
  }

  /** Two arrays of one shape with equal elements are equal. */
  lemma SameValues(a: Array3, b: Array3)
    requires Shaped(a) && Shaped(b)
    requires a.channels == b.channels && a.height == b.height && a.width == b.width
    requires forall c, y, x :: 0 <= c < a.channels && 0 <= y < a.height && 0 <= x < a.width ==>
      a.values[c][y][x] == b.values[c][y][x]
    ensures a == b
  {
    forall c | 0 <= c < a.channels
      ensures a.values[c] == b.values[c]
    {
      forall y | 0 <= y < a.height
        ensures a.values[c][y] == b.values[c][y]
      {
      }
    }
  }

  // ---------------------------------------------------------------------
  // Normalisation.

  /** IEEE single-precision arithmetic, which the model does not interpret. */
  datatype FloatOps = FloatOps(mul: (F32, F32) -> F32, div: (F32, F32) -> F32, sub: (F32, F32) -> F32)

  /** The scaling step: by `scale` when given, otherwise a division by 255. */
  function Scaling(options: NormalizeOptions, ops: FloatOps): F32 -> F32
  {
    if options.scale.Some? then x => ops.mul(x, options.scale.value) else x => ops.div(x, F32_255)
  }

  /** The per-channel standardisation `(x - mean) / std`. */
  function Standardize(ops: FloatOps, mean: F32, std: F32): F32 -> F32
  {
    x => ops.div(ops.sub(x, mean), std)
  }

  /** `f` applied to every element of a plane (`mapv`). */
  function MapPlane(p: seq<seq<F32>>, f: F32 -> F32): (r: seq<seq<F32>>)
    ensures |r| == |p|
    ensures forall y :: 0 <= y < |p| ==> |r[y]| == |p[y]|
    ensures forall y, x :: 0 <= y < |p| && 0 <= x < |p[y]| ==> r[y][x] == f(p[y][x])
  {
    seq(|p|, y requires 0 <= y < |p| => seq(|p[y]|, x requires 0 <= x < |p[y]| => f(p[y][x])))
  }

  /** The elements of `p` replaced by their images under `f`, one at a time (`mapv_inplace`). */
  method MapPlaneInPlace(p: seq<seq<F32>>, f: F32 -> F32) returns (q: seq<seq<F32>>)
    ensures q == MapPlane(p, f)
  {
    q := p;
    for y := 0 to |p|
      invariant |q| == |p|
      invariant forall j :: 0 <= j < y ==> q[j] == MapPlane(p, f)[j]
      invariant forall j :: y <= j < |p| ==> q[j] == p[j]
    {
      var row := q[y];
      for x := 0 to |row|
        invariant |row| == |p[y]|
        invariant forall i :: 0 <= i < x ==> row[i] == f(p[y][i])
        invariant forall i :: x <= i < |row| ==> row[i] == p[y][i]
      {
        row := row[x := f(row[x])];
      }
      assert row == MapPlane(p, f)[y];
      q := q[y := row];
    }
  }

  /** Every plane mapped by `f`. */
  function MapAll(planes: seq<seq<seq<F32>>>, f: F32 -> F32): seq<seq<seq<F32>>>
  {
    seq(|planes|, c requires 0 <= c < |planes| => MapPlane(planes[c], f))
  }

  /** Channel `c` standardised with `mean[c]` and `std[c]`, for every channel. */
  function StandardizeAll(planes: seq<seq<seq<F32>>>, ops: FloatOps, mean: seq<F32>, std: seq<F32>): seq<seq<seq<F32>>>
    requires |mean| == |std| == |planes|
  {
    seq(|planes|, c requires 0 <= c < |planes| => MapPlane(planes[c], Standardize(ops, mean[c], std[c])))
  }

  /**
   * `normalize_array`: the scaling step always runs; when both `mean` and
   * `std` are given their lengths must equal the channel count, and then
   * every channel is standardised. The shape never changes.
   */
  function Normalized(arr: Array3, options: NormalizeOptions, ops: FloatOps): (r: Result<Array3, PreprocessingError>)
    requires Shaped(arr)
    ensures r.Err? <==>
      options.mean.Some? && options.std.Some? &&
      (|options.mean.value| != |options.std.value| || |options.mean.value| != arr.channels)
    ensures r.Err? ==> r.error == DimensionError("Mean and std dimensions must match channel count")
    ensures r.Ok? ==> Shaped(r.value)
    ensures r.Ok? ==> r.value.channels == arr.channels && r.value.height == arr.height && r.value.width == arr.width
    ensures r.Ok? && (options.mean.None? || options.std.None?) ==>
      forall c, y, x :: 0 <= c < arr.channels && 0 <= y < arr.height && 0 <= x < arr.width ==>
        r.value.values[c][y][x] == Scaling(options, ops)(arr.values[c][y][x])
    ensures r.Ok? && options.mean.Some? && options.std.Some? ==>
      forall c, y, x :: 0 <= c < arr.channels && 0 <= y < arr.height && 0 <= x < arr.width ==>
        r.value.values[c][y][x] ==
          Standardize(ops, options.mean.value[c], options.std.value[c])(Scaling(options, ops)(arr.values[c][y][x]))
  {
    var scaled := MapAll(arr.values, Scaling(options, ops));
    if options.mean.Some? && options.std.Some? then
      var mean, std := options.mean.value, options.std.value;
      if |mean| != |std| || |mean| != arr.channels then
        Err(DimensionError("Mean and std dimensions must match channel count"))
      else
        Ok(Array3(arr.channels, arr.height, arr.width, StandardizeAll(scaled, ops, mean, std)))
    else
      Ok(Array3(arr.channels, arr.height, arr.width, scaled))
  }

  /** `normalize_array`, mapping the whole array and then each channel slice in place. */
  method NormalizeArray(arr: Array3, options: NormalizeOptions, ops: FloatOps) returns (r: Result<Array3, PreprocessingError>)
    requires Shaped(arr)
    ensures r == Normalized(arr, options, ops)
  {
    var values := arr.values;
    var scale := Scaling(options, ops);
    for c := 0 to |values|
      invariant |values| == |arr.values|
      invariant forall k :: 0 <= k < c ==> values[k] == MapPlane(arr.values[k], scale)
      invariant forall k :: c <= k < |values| ==> values[k] == arr.values[k]
    {
      var plane := MapPlaneInPlace(values[c], scale);
      values := values[c := plane];
    }
    ghost var scaled := values;
    assert scaled == MapAll(arr.values, scale);
    if options.mean.Some? && options.std.Some? {
      var mean, std := options.mean.value, options.std.value;
      if |mean| != |std| || |mean| != arr.channels {
        return Err(DimensionError("Mean and std dimensions must match channel count"));
      }
      for c := 0 to |mean|
        invariant |values| == |scaled|
        invariant forall k :: 0 <= k < c ==> values[k] == MapPlane(scaled[k], Standardize(ops, mean[k], std[k]))
        invariant forall k :: c <= k < |values| ==> values[k] == scaled[k]
      {
        var plane := MapPlaneInPlace(values[c], Standardize(ops, mean[c], std[c]));
        values := values[c := plane];
      }
      assert values == StandardizeAll(scaled, ops, mean, std);
    }
    r := Ok(Array3(arr.channels, arr.height, arr.width, values));
  }

  // ---------------------------------------------------------------------
  // Dynamic-rank arrays and layouts.

  /**
   * An array of any rank: its shape and its elements in row-major order of
   * that shape. `standard` says whether the elements are also contiguous in
   * that order in memory, which is what `as_slice` needs.
   */
  datatype NdArray = NdArray(shape: seq<nat>, data: seq<F32>, standard: bool)

  function Product(dims: seq<nat>): nat
  {
    if dims == [] then 1 else dims[0] * Product(dims[1..])
  }

  /** `as_slice`: the elements when they are contiguous in row-major order. */
  function AsSlice(a: NdArray): Option<seq<F32>>
  {
    if a.standard then Some(a.data) else None
  }

  function Flatten<T>(xs: seq<seq<T>>): seq<T>
  {
    if xs == [] then [] else xs[0] + Flatten(xs[1..])
  }

  /** Rows of one length flatten to their total size. */
  lemma {:induction false} FlattenSize<T>(xs: seq<seq<T>>, n: nat)
    requires forall i :: 0 <= i < |xs| ==> |xs[i]| == n
    ensures |Flatten(xs)| == |xs| * n
  {
    if xs != [] {
      FlattenSize(xs[1..], n);
    }
  }

  /** The elements of a channel-major array, in row-major order. */
  function Data3(v: seq<seq<seq<F32>>>): seq<F32>
  {
    Flatten(PlaneData(v))
  }

  /** The elements of each plane, in row-major order. */
  function PlaneData(v: seq<seq<seq<F32>>>): (r: seq<seq<F32>>)
    ensures |r| == |v|
  {
    seq(|v|, c requires 0 <= c < |v| => Flatten(v[c]))
  }

  lemma Data3Size(a: Array3)
    requires Shaped(a)
    ensures |Data3(a.values)| == Product([a.channels, a.height, a.width])
  {
    var planes := PlaneData(a.values);
    forall c | 0 <= c < a.channels
      ensures |planes[c]| == a.height * a.width
    {
      FlattenSize(a.values[c], a.width);
    }
    FlattenSize(planes, a.height * a.width);
    assert [a.channels, a.height, a.width][1..] == [a.height, a.width];
    assert [a.height, a.width][1..] == [a.width];
    assert Product([a.width]) == a.width;
    assert Product([a.height, a.width]) == a.height * a.width;
    assert Product([a.channels, a.height, a.width]) == a.channels * (a.height * a.width);
  }

  /** The channel-last view: element `[y][x][c]` is the input's `[c][y][x]`. */
  function Nhwc(a: Array3): (r: seq<seq<seq<F32>>>)
    requires Shaped(a)
    ensures Rows(r, a.width, a.height)
    ensures forall y, x :: 0 <= y < a.height && 0 <= x < a.width ==> |r[y][x]| == a.channels
    ensures forall y, x, c :: 0 <= y < a.height && 0 <= x < a.width && 0 <= c < a.channels ==>
      r[y][x][c] == a.values[c][y][x]
  {
    seq(a.height, y requires 0 <= y < a.height =>
      seq(a.width, x requires 0 <= x < a.width =>
        seq(a.channels, c requires 0 <= c < a.channels => a.values[c][y][x])))
  }

  /**
   * Whether the axes `(H, W, C)` of a standard `(C, H, W)` array, permuted
   * and with a unit axis in front, are still in standard order: true
   * exactly when the channel axis has length 1, or the plane has at most
   * one pixel, or the array is empty.
   */
  predicate NhwcContiguous(channels: nat, height: nat, width: nat)
  {
    channels == 0 || height == 0 || width == 0 || channels == 1 || (height == 1 && width == 1)
  }

  /** The result without a layout option: the array itself, of rank 3. */
  function Rank3(a: Array3): (r: NdArray)
    requires Shaped(a)
    ensures r.shape == [a.channels, a.height, a.width] && r.standard
    ensures |r.data| == Product(r.shape)
  {
    Data3Size(a);
    NdArray([a.channels, a.height, a.width], Data3(a.values), true)
  }

  /**
   * `convert_layout` as written: NCHW puts a unit axis in front and keeps
   * the element order; NHWC permutes the axes to `(H, W, C)` first, which
   * leaves the elements in channel-major memory order.
   */
  function ConvertLayoutAsWritten(a: Array3, layout: string): (r: Result<NdArray, PreprocessingError>)
    requires Shaped(a)
    ensures layout == "NHWC" ==> r.Ok? && r.value.shape == [1, a.height, a.width, a.channels]
    ensures layout == "NHWC" ==> r.Ok? && (r.value.standard <==> NhwcContiguous(a.channels, a.height, a.width))
  {
    if layout == "NCHW" then
      Ok(NdArray([1, a.channels, a.height, a.width], Data3(a.values), true))
    else if layout == "NHWC" then
      Ok(NdArray([1, a.height, a.width, a.channels], Data3(Nhwc(a)), NhwcContiguous(a.channels, a.height, a.width)))
    else
      Err(FormatError("Invalid layout"))
  }

  /** An RGB array of more than one pixel in NHWC layout has no contiguous slice. */
  lemma NhwcAsWrittenHasNoSlice(a: Array3)
    requires Shaped(a) && a.channels == 3 && a.height >= 1 && a.width >= 1 && a.height * a.width >= 2
    ensures AsSlice(ConvertLayoutAsWritten(a, "NHWC").value) == None
  {
  }

  /** The 2 by 2 RGB array that shows it. */
  lemma NhwcAsWrittenWitness()
    ensures var a := Array3(3, 2, 2, Planes3(3, 2, 2, 0));
      Shaped(a) && AsSlice(ConvertLayoutAsWritten(a, "NHWC").value) == None
  {
    var a := Array3(3, 2, 2, Planes3(3, 2, 2, 0));
    assert Shaped(a);
    NhwcAsWrittenHasNoSlice(a);
  }

  /**
   * `convert_layout` with the permuted array copied into standard order:
   * NCHW gives shape `(1, C, H, W)` with the elements in their original
   * order, NHWC gives `(1, H, W, C)` with element `[0, y, x, c]` equal to
   * the input's `[c, y, x]`, and any other name is a format error.
   */
  function ConvertLayout(a: Array3, layout: string): (r: Result<NdArray, PreprocessingError>)
    requires Shaped(a)
    ensures r.Err? <==> layout !in ["NCHW", "NHWC"]
    ensures r.Err? ==> r.error == FormatError("Invalid layout")
    ensures r.Ok? ==> r.value.standard && |r.value.data| == Product(r.value.shape)
    ensures layout == "NCHW" ==> r.Ok? && r.value.shape == [1, a.channels, a.height, a.width]
    ensures layout == "NCHW" ==> r.Ok? && r.value.data == Rank3(a).data
    ensures layout == "NHWC" ==> r.Ok? && r.value.shape == [1, a.height, a.width, a.channels]
    ensures layout == "NHWC" ==> r.Ok? && r.value.data == Data3(Nhwc(a))
  {
    Data3Size(a);
    if layout == "NCHW" then
      Ok(NdArray([1, a.channels, a.height, a.width], Data3(a.values), true))
    else if layout == "NHWC" then
      var t := Nhwc(a);
      NhwcSize(a);
      Ok(NdArray([1, a.height, a.width, a.channels], Data3(t), true))
    else
      Err(FormatError("Invalid layout"))
  }

  lemma NhwcSize(a: Array3)
    requires Shaped(a)
    ensures |Data3(Nhwc(a))| == Product([1, a.height, a.width, a.channels])
  {
    var t := Nhwc(a);
    Data3Size(Array3(a.height, a.width, a.channels, t));
  }

  // ---------------------------------------------------------------------
  // The pipeline.

  /**
   * `process`: decode, resize when asked, convert the colour space, convert
   * to an array, normalise when asked and change the layout when asked.
   * The first stage that fails gives the result.
   */
  function Processed(lib: ImageLibrary, ops: FloatOps, options: PreprocessingOptions, data: seq<byte>): (r: Result<NdArray, PreprocessingError>)
    requires Lawful(lib)
    ensures lib.load(data).Err? ==> r == Err(ImageError(lib.load(data).error))
    ensures lib.load(data).Ok? && options.resize.Some? && options.resize.value.filter !in ["bilinear", "nearest", "bicubic"] ==>
      r == Err(FormatError("Invalid resize method"))
    ensures (lib.load(data).Ok? && (options.resize.None? || options.resize.value.filter in ["bilinear", "nearest", "bicubic"]) &&
             options.colorSpace.Some? && options.colorSpace.value !in ["RGB", "BGR", "GRAYSCALE"]) ==>
      r == Err(FormatError(options.colorSpace.value))
    ensures r.Ok? ==> r.value.standard && |r.value.data| == Product(r.value.shape)
    ensures r.Ok? && options.layout.None? ==> |r.value.shape| == 3
    ensures r.Ok? && options.layout.Some? ==> |r.value.shape| == 4
  {
    match lib.load(data)
    case Err(e) => Err(ImageError(e))
    case Ok(decoded) =>
      var resized := if options.resize.Some? then ResizeImage(lib, decoded, options.resize.value) else Ok(decoded);
      match resized
      case Err(e) => Err(e)
      case Ok(img) =>
        match ColorConverted(lib, img, options.colorSpace)
        case Err(e) => Err(e)
        case Ok(colored) =>
          match ArrayOf(colored)
          case Err(e) => Err(e)
          case Ok(arr) =>
            var normalized := if options.normalize.Some? then Normalized(arr, options.normalize.value, ops) else Ok(arr);
            match normalized
            case Err(e) => Err(e)
            case Ok(arr') =>
              if options.layout.Some? then ConvertLayout(arr', options.layout.value) else Ok(Rank3(arr'))
  }

  /** `process`, stage by stage. */
  method Process(lib: ImageLibrary, ops: FloatOps, options: PreprocessingOptions, data: seq<byte>) returns (r: Result<NdArray, PreprocessingError>)
    requires Lawful(lib)
    ensures r == Processed(lib, ops, options, data)
  {
    var decoded := lib.load(data);
    if decoded.Err? {
      return Err(ImageError(decoded.error));
    }
    var img := decoded.value;
    if options.resize.Some? {
      var resized := ResizeImage(lib, img, options.resize.value);
      if resized.Err? {
        return Err(resized.error);
      }
      img := resized.value;
    }
    var colored := ConvertColorSpace(lib, img, options.colorSpace);
    if colored.Err? {
      return Err(colored.error);
    }
    var arr := ImageToArray(colored.value);
    if arr.Err? {
      return Err(arr.error);
    }
    var values := arr.value;
    if options.normalize.Some? {
      var normalized := NormalizeArray(values, options.normalize.value, ops);
      if normalized.Err? {
        return Err(normalized.error);
      }
      values := normalized.value;
    }
    if options.layout.Some? {
      r := ConvertLayout(values, options.layout.value);
    } else {
      r := Ok(Rank3(values));
    }
  }

  /** A decoded image resized to 224 by 224 with bilinear filtering, in RGB and NCHW, has shape `[1, 3, 224, 224]`. */
  lemma ResizedRgbNchwShape(lib: ImageLibrary, ops: FloatOps, data: seq<byte>, normalize: Option<NormalizeOptions>)
    requires Lawful(lib) && lib.load(data).Ok?
    requires normalize.Some? && normalize.value.mean.Some? && normalize.value.std.Some? ==>
      |normalize.value.mean.value| == 3 && |normalize.value.std.value| == 3
    ensures var options := PreprocessingOptions(Some(ResizeOptions(224, 224, "bilinear")), normalize, Some("RGB"), Some("NCHW"));
      var r := Processed(lib, ops, options, data);
      r.Ok? && r.value.shape == [1, 3, 224, 224]
  {
  }

  /** With no colour space given, an image of another pixel format stops at the array stage. */
  lemma OtherFormatRejected(lib: ImageLibrary, ops: FloatOps, options: PreprocessingOptions, data: seq<byte>)
    requires Lawful(lib) && lib.load(data).Ok? && lib.load(data).value.OtherImage?
    requires options.colorSpace.None?
    requires options.resize.Some? ==> options.resize.value.filter in ["bilinear", "nearest", "bicubic"]
    ensures Processed(lib, ops, options, data) == Err(FormatError("Unsupported image format"))
  {
  }
}
