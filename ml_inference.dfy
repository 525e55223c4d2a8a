/**
 * The inference module's arena and its byte codecs: the seven-field model
 * configuration, tensors laid out as `rank | dims | f32 payload`, the
 * multi-tensor inference result, and the NUL-terminated metadata string.
 *
 * Model loading, model metadata extraction and JSON serialisation are
 * library work and are given as the functions of a `Runtime`.
 */
module Inference {
  import opened Wrappers
  import opened Bytes
  import opened Preprocessing

  // ---------------------------------------------------------------------
  // Configuration.

  datatype Precision = Fp32 | Fp16 | Int8

  function PrecisionName(p: Precision): string
  {
    match p
    case Fp32 => "fp32"
    case Fp16 => "fp16"
    case Int8 => "int8"
  }

  /** The code of a precision as the host writes it. */
  function PrecisionCode(p: Precision): nat
  {
    match p
    case Fp32 => 0
    case Fp16 => 1
    case Int8 => 2
  }

  /** The precision a code selects: 1 and 2 name fp16 and int8, every other value fp32. */
  function PrecisionOf(code: nat): (p: Precision)
    ensures p == Fp16 <==> code == 1
    ensures p == Int8 <==> code == 2
    ensures code == PrecisionCode(p) || p == Fp32
  {
    if code == 1 then Fp16 else if code == 2 then Int8 else Fp32
  }

  datatype ModelConfig = ModelConfig(
    batchSize: nat,
    numThreads: nat,
    useGpu: bool,
    precision: Precision,
    optimizationLevel: nat,
    cacheResults: bool,
    timeout: nat)

  /** The configuration a fresh instance starts with. */
  const DEFAULT_CONFIG := ModelConfig(1, 1, false, Fp32, 2, true, 30000)

  /** The 28 bytes of a model configuration: seven little-endian 32-bit integers in field order. */
  function EncodeModelConfig(cfg: ModelConfig): (b: seq<byte>)
    ensures |b| == 28
  {
    U32Bytes(cfg.batchSize) + U32Bytes(cfg.numThreads) + FlagBytes(cfg.useGpu)
      + U32Bytes(PrecisionCode(cfg.precision)) + U32Bytes(cfg.optimizationLevel)
      + FlagBytes(cfg.cacheResults) + U32Bytes(cfg.timeout)
  }

  /**
   * `read_config` on the seven fields: counts and the timeout are the
   * fields' unsigned 32-bit values, the flags are true exactly when their
   * field is nonzero, and the optimisation level keeps only the low byte
   * of its field (`as u8`).
   */
  function DecodeModelConfig(b: seq<byte>): (cfg: ModelConfig)
    requires |b| == 28
    ensures cfg.batchSize < TWO32 && cfg.numThreads < TWO32 && cfg.timeout < TWO32
    ensures cfg.useGpu <==> b[8..12] != [0, 0, 0, 0]
    ensures cfg.cacheResults <==> b[20..24] != [0, 0, 0, 0]
    ensures cfg.precision == PrecisionOf(U32Of(b[12..16]))
    ensures cfg.optimizationLevel == U32Of(b[16..20]) % 256
  {
    U32OfZero(b[8..12]);
    U32OfZero(b[20..24]);
    ModelConfig(
      U32Of(b[0..4]), U32Of(b[4..8]), U32Of(b[8..12]) != 0, PrecisionOf(U32Of(b[12..16])),
      b[16] as nat, U32Of(b[20..24]) != 0, U32Of(b[24..28]))
  }

  /** A configuration whose fields fit their wire widths reads back as written. */
  lemma {:induction false} ModelConfigRoundTrip(cfg: ModelConfig)
    requires cfg.batchSize < TWO32 && cfg.numThreads < TWO32 && cfg.timeout < TWO32
    requires cfg.optimizationLevel < 256
    ensures DecodeModelConfig(EncodeModelConfig(cfg)) == cfg
  {
    U32OfFits(cfg.batchSize);
    U32OfFits(cfg.numThreads);
    U32OfFits(PrecisionCode(cfg.precision));
    U32OfFits(cfg.timeout);
    FlagReadsBack(cfg.useGpu);
    FlagReadsBack(cfg.cacheResults);
    LowByte(cfg.optimizationLevel);
    DecodeFields(U32Bytes(cfg.batchSize), U32Bytes(cfg.numThreads), FlagBytes(cfg.useGpu),
      U32Bytes(PrecisionCode(cfg.precision)), U32Bytes(cfg.optimizationLevel),
      FlagBytes(cfg.cacheResults), U32Bytes(cfg.timeout), cfg);
  }

  /** A flag field reads as nonzero exactly when the flag was set. */
  lemma FlagReadsBack(b: bool)
    ensures U32Of(FlagBytes(b)) != 0 <==> b
  {
    U32OfZero(FlagBytes(b));
  }

  /** The first byte of a value below 256 is the value itself. */
  lemma LowByte(n: nat)
    requires n < 256
    ensures U32Bytes(n)[0] as nat == n
  {
    DigitSteps(n);
  }

  /** Seven 4-byte fields that each read as a configuration's field decode to that configuration. */
  lemma DecodeFields(a: seq<byte>, b: seq<byte>, c: seq<byte>, d: seq<byte>, e: seq<byte>, f: seq<byte>, g: seq<byte>, cfg: ModelConfig)
    requires |a| == |b| == |c| == |d| == |e| == |f| == |g| == 4
    requires U32Of(a) == cfg.batchSize && U32Of(b) == cfg.numThreads && (U32Of(c) != 0 <==> cfg.useGpu)
    requires PrecisionOf(U32Of(d)) == cfg.precision && e[0] as nat == cfg.optimizationLevel
    requires (U32Of(f) != 0 <==> cfg.cacheResults) && U32Of(g) == cfg.timeout
    ensures DecodeModelConfig(a + b + c + d + e + f + g) == cfg
  {
    Fields7(a, b, c, d, e, f, g);
  }

  /** The seven 4-byte fields of a record, cut back out of it. */
  lemma Fields7(a: seq<byte>, b: seq<byte>, c: seq<byte>, d: seq<byte>, e: seq<byte>, f: seq<byte>, g: seq<byte>)
    requires |a| == |b| == |c| == |d| == |e| == |f| == |g| == 4
    ensures var s := a + b + c + d + e + f + g;
      s[0..4] == a && s[4..8] == b && s[8..12] == c && s[12..16] == d &&
      s[16..20] == e && s[20..24] == f && s[24..28] == g
  {
  }

  // ---------------------------------------------------------------------
  // Models and the libraries around them.

  datatype ModelFormat = Onnx | TensorFlow

  /** A loaded, optimised model graph; the model does not look inside it. */
  datatype LoadedModel = LoadedModel(handle: nat)

  datatype TensorInfo = TensorInfo(shape: seq<nat>, dataType: string, layout: string)

  datatype ModelMetadata = ModelMetadata(
    name: string,
    version: string,
    framework: string,
    inputShapes: seq<TensorInfo>,
    outputShapes: seq<TensorInfo>)

  /**
   * The libraries the module calls: the two model loaders (which see the
   * configuration in force), the metadata extraction, and JSON
   * serialisation of the metadata.
   */
  datatype Runtime = Runtime(
    loadOnnx: (seq<byte>, ModelConfig) -> Result<LoadedModel, string>,
    loadTensorflow: (seq<byte>, ModelConfig) -> Result<LoadedModel, string>,
    describe: LoadedModel -> Result<ModelMetadata, string>,
    toJson: ModelMetadata -> seq<byte>)

  /** The loader a model format selects. */
  function Loader(env: Runtime, f: ModelFormat): (seq<byte>, ModelConfig) -> Result<LoadedModel, string>
  {
    match f
    case Onnx => env.loadOnnx
    case TensorFlow => env.loadTensorflow
  }

  const ONNX_MAGIC: seq<byte> := [0x4F, 0x4E, 0x4E, 0x58]
  const TF_MAGIC: seq<byte> := [0x54, 0x46]

  /** The header test of `load_model`: "ONNX" first, then "TF". */
  function FormatOf(data: seq<byte>): (f: Option<ModelFormat>)
    ensures f == Some(Onnx) <==> StartsWith(data, ONNX_MAGIC)
    ensures f == Some(TensorFlow) <==> StartsWith(data, TF_MAGIC)
    ensures f.None? <==> !StartsWith(data, ONNX_MAGIC) && !StartsWith(data, TF_MAGIC)
  {
    assert StartsWith(data, ONNX_MAGIC) ==> data[0] == 0x4F;
    assert StartsWith(data, TF_MAGIC) ==> data[0] == 0x54;
    if StartsWith(data, ONNX_MAGIC) then Some(Onnx)
    else if StartsWith(data, TF_MAGIC) then Some(TensorFlow)
    else None
  }

  // ---------------------------------------------------------------------
  // Tensors in the buffer.

  /** The fields of a tensor: its rank, each dimension, then each payload word. */
  function TensorBytes(shape: seq<nat>, data: seq<F32>): (b: seq<byte>)
    ensures |b| == 4 * (1 + |shape|) + 4 * |data|
  {
    U32Bytes(|shape|) + U32Seq(shape) + U32Seq(data)
  }

  /** A written tensor: its fields and the zero padding of its allocation. */
  function TensorImage(shape: seq<nat>, data: seq<F32>): seq<byte>
  {
    Padded(TensorBytes(shape, data))
  }

  /** The words at `off`, or None where they would run past the buffer. */
  function WordsAt(mem: seq<byte>, off: nat, n: nat): (r: Option<seq<nat>>)
    ensures r.Some? <==> off + 4 * n <= |mem|
    ensures r.Some? ==> |r.value| == n && Fits32(r.value)
  {
    if off + 4 * n <= |mem| then Some(U32SeqOf(mem[off..off + 4 * n])) else None
  }

  datatype TensorError = OutOfBounds | UnsupportedDimension

  /** The message a tensor error carries to the host. */
  function TensorErrorMessage(e: TensorError): string
  {
    match e
    case OutOfBounds => "Tensor out of bounds"
    case UnsupportedDimension => "Unsupported tensor dimension"
  }

  /**
   * `read_tensor`: the rank and dimensions at `shapePtr`, then as many
   * payload words at `ptr` as the dimensions' product. Only ranks 1 to 4
   * are accepted. A read past the end of the buffer is `OutOfBounds`.
   */
  function ReadTensor(mem: seq<byte>, ptr: nat, shapePtr: nat): (r: Result<NdArray, TensorError>)
    ensures r.Ok? ==> 1 <= |r.value.shape| <= 4 && |r.value.data| == Product(r.value.shape) && r.value.standard
    ensures r.Ok? ==> WordsAt(mem, shapePtr + 4, |r.value.shape|) == Some(r.value.shape)
    ensures r.Ok? ==> WordsAt(mem, ptr, |r.value.data|) == Some(r.value.data)
    ensures r == Err(UnsupportedDimension) ==>
      shapePtr + 4 <= |mem| && !(1 <= U32Of(mem[shapePtr..shapePtr + 4]) <= 4)
    ensures var header := WordsAt(mem, shapePtr, 1);
      var dims := if header.Some? then WordsAt(mem, shapePtr + 4, header.value[0]) else None;
      var data := if dims.Some? then WordsAt(mem, ptr, Product(dims.value)) else None;
      && (r == Err(OutOfBounds) <==> data.None?)
      && (data.Some? ==> (r.Ok? <==> 1 <= header.value[0] <= 4))
      && (data.Some? && !(1 <= header.value[0] <= 4) ==> r == Err(UnsupportedDimension))
  {
    match WordsAt(mem, shapePtr, 1)
    case None => Err(OutOfBounds)
    case Some(header) =>
      var rank := header[0];
      assert mem[shapePtr..shapePtr + 4][..4] == mem[shapePtr..shapePtr + 4];
      assert rank == U32Of(mem[shapePtr..shapePtr + 4]);
      match WordsAt(mem, shapePtr + 4, rank)
      case None => Err(OutOfBounds)
      case Some(dims) =>
        match WordsAt(mem, ptr, Product(dims))
        case None => Err(OutOfBounds)
        case Some(data) =>
          if 1 <= rank <= 4 then Ok(NdArray(dims, data, true)) else Err(UnsupportedDimension)
  }

  /**
   * A tensor's fields anywhere in the buffer read back with the same shape
   * and payload, when its rank is 1 to 4, its dimensions fit in 32 bits
   * and its payload has one word per element.
   */
  lemma TensorRoundTrip(mem: seq<byte>, p: nat, ptr: nat, shape: seq<nat>, data: seq<F32>)
    requires 1 <= |shape| <= 4 && Fits32(shape) && |data| == Product(shape)
    requires At(mem, p, TensorBytes(shape, data)) && ptr == p + 4 * (1 + |shape|)
    ensures ReadTensor(mem, ptr, p) == Ok(NdArray(shape, data, true))
  {
    TensorFields(mem, p, ptr, shape, data);
    ReadTensorOf(mem, ptr, p, shape, data);
  }

  /** Where the rank, the dimensions and the payload of a tensor's fields sit. */
  lemma TensorFields(mem: seq<byte>, p: nat, ptr: nat, shape: seq<nat>, data: seq<F32>)
    requires At(mem, p, TensorBytes(shape, data)) && ptr == p + 4 * (1 + |shape|)
    ensures At(mem, p, U32Seq([|shape|])) && At(mem, p + 4, U32Seq(shape)) && At(mem, ptr, U32Seq(data))
  {
    var rank := U32Bytes(|shape|);
    AtSplit(mem, p, rank + U32Seq(shape), U32Seq(data));
    AtSplit(mem, p, rank, U32Seq(shape));
    assert U32Seq([|shape|]) == rank + U32Seq([]);
  }

  /** A tensor written at the end of the buffer, padding and all, reads back as written. */
  lemma WrittenTensorReadsBack(prefix: seq<byte>, ptr: nat, shape: seq<nat>, data: seq<F32>)
    requires 1 <= |shape| <= 4 && Fits32(shape) && |data| == Product(shape)
    requires ptr == |prefix| + 4 * (1 + |shape|)
    ensures ReadTensor(prefix + TensorImage(shape, data), ptr, |prefix|) == Ok(NdArray(shape, data, true))
  {
    ImageHoldsFields(prefix, shape, data);
    TensorRoundTrip(prefix + TensorImage(shape, data), |prefix|, ptr, shape, data);
  }

  /** A tensor's fields start where its image starts. */
  lemma ImageHoldsFields(prefix: seq<byte>, shape: seq<nat>, data: seq<F32>)
    ensures At(prefix + TensorImage(shape, data), |prefix|, TensorBytes(shape, data))
  {
    var b := TensorBytes(shape, data);
    AtSuffix(prefix, TensorImage(shape, data));
    AtSplit(prefix + TensorImage(shape, data), |prefix|, b, Zeros(Round8(|b|) - |b|));
  }

  /** A rank, dimensions and payload in place are read as that tensor. */
  lemma ReadTensorOf(mem: seq<byte>, ptr: nat, shapePtr: nat, shape: seq<nat>, data: seq<F32>)
    requires 1 <= |shape| <= 4 && Fits32(shape) && |data| == Product(shape)
    requires At(mem, shapePtr, U32Seq([|shape|])) && At(mem, shapePtr + 4, U32Seq(shape)) && At(mem, ptr, U32Seq(data))
    ensures ReadTensor(mem, ptr, shapePtr) == Ok(NdArray(shape, data, true))
  {
    U32OfFits(|shape|);
    assert Fits32([|shape|]);
    WordsAtImage(mem, shapePtr, [|shape|]);
    WordsAtImage(mem, shapePtr + 4, shape);
    assert Fits32(data);
    WordsAtImage(mem, ptr, data);
    assert WordsAt(mem, shapePtr, 1) == Some([|shape|]);
    assert WordsAt(mem, ptr, Product(shape)) == Some(data);
  }

  /** Words written in place read back. */
  lemma WordsAtImage(mem: seq<byte>, off: nat, ns: seq<nat>)
    requires Fits32(ns) && At(mem, off, U32Seq(ns))
    ensures WordsAt(mem, off, |ns|) == Some(ns)
  {
    U32SeqRoundTrip(ns);
  }

  // ---------------------------------------------------------------------
  // Inference results.

  /** An output tensor: its shape and its payload, or the library's error when it holds no `f32` data. */
  datatype Tensor = Tensor(shape: seq<nat>, data: Result<seq<F32>, string>)

  predicate AllF32(outputs: seq<Tensor>)
  {
    forall i :: 0 <= i < |outputs| ==> outputs[i].data.Ok?
  }

  /** The error of the first output without `f32` data. */
  function FirstError(outputs: seq<Tensor>): (e: Option<string>)
    ensures e.None? <==> AllF32(outputs)
    ensures e.Some? ==> exists i :: 0 <= i < |outputs| && outputs[i].data == Err(e.value) && AllF32(outputs[..i])
  {
    if outputs == [] then None
    else if outputs[0].data.Err? then Some(outputs[0].data.error)
    else
      var rest := FirstError(outputs[1..]);
      assert AllF32(outputs[1..]) ==> AllF32(outputs) by {
        if AllF32(outputs[1..]) {
          forall i | 0 <= i < |outputs|
            ensures outputs[i].data.Ok?
          {
            if i > 0 {
              assert outputs[i] == outputs[1..][i - 1];
            }
          }
        }
      }
      if rest.Some? then
        ghost var i :| 0 <= i < |outputs[1..]| && outputs[1..][i].data == Err(rest.value) && AllF32(outputs[1..][..i]);
        assert outputs[i + 1] == outputs[1..][i];
        assert outputs[..i + 1] == [outputs[0]] + outputs[1..][..i];
        rest
      else rest
  }

  /** The byte count the first pass adds up: per output, `4 * (1 + rank)` and `4` per payload word. */
  function ResultsSize(outputs: seq<Tensor>): nat
    requires AllF32(outputs)
  {
    if outputs == [] then 0
    else
      var last := outputs[|outputs| - 1];
      ResultsSize(outputs[..|outputs| - 1]) + 4 * (1 + |last.shape|) + 4 * |last.data.value|
  }

  /** The outputs' fields, back to back. */
  function ResultsBytes(outputs: seq<Tensor>): seq<byte>
    requires AllF32(outputs)
  {
    if outputs == [] then []
    else
      var last := outputs[|outputs| - 1];
      ResultsBytes(outputs[..|outputs| - 1]) + TensorBytes(last.shape, last.data.value)
  }

  /** The precomputed size is exactly the number of bytes the second pass writes. */
  lemma {:induction false} ResultsSizeExact(outputs: seq<Tensor>)
    requires AllF32(outputs)
    ensures |ResultsBytes(outputs)| == ResultsSize(outputs)
    decreases |outputs|
  {
    if outputs != [] {
      ResultsSizeExact(outputs[..|outputs| - 1]);
    }
  }

  /** A written result: the output count, the outputs, and the padding of the allocation. */
  function ResultsImage(outputs: seq<Tensor>): seq<byte>
    requires AllF32(outputs)
  {
    Padded(U32Bytes(|outputs|) + ResultsBytes(outputs))
  }

  /** The message a preprocessing error carries to the host (its `Display` form). */
  function PreprocessingMessage(e: PreprocessingError): string
  {
    match e
    case ImageError(m) => "Image processing failed: " + m
    case DimensionError(m) => "Invalid dimensions: " + m
    case FormatError(m) => "Unsupported format: " + m
  }

  // ---------------------------------------------------------------------
  // The inference instance.

  class MLInference {
    var model: Option<LoadedModel>
    var config: ModelConfig
    var metadata: Option<ModelMetadata>
    var memory: seq<byte>

    predicate Valid()
      reads this
    {
      |memory| % 8 == 0
    }

    /** No model, the default configuration, no metadata, an empty buffer. */
    constructor()
      ensures Valid()
      ensures model == None && config == DEFAULT_CONFIG && metadata == None && memory == []
    {
      model := None;
      config := DEFAULT_CONFIG;
      metadata := None;
      memory := [];
    }

    /**
     * Bump allocation: the new region starts at the old end of the buffer,
     * which grows by the size rounded up to 8 with zero bytes. The
     * capacity check only reserves space and does not change the result.
     */
    method Allocate(size: nat) returns (ptr: nat)
      requires Valid()
      modifies this
      ensures Valid()
      ensures ptr == old(|memory|) && ptr % 8 == 0
      ensures memory == old(memory) + Zeros(Round8(size))
      ensures model == old(model) && config == old(config) && metadata == old(metadata)
    {
      ptr := |memory|;
      memory := memory + Zeros(Round8(size));
    }

    /**
     * Zero-fills the region `[ptr, ptr + round8(size))` when it lies inside
     * the buffer and does nothing otherwise; the length never changes.
     */
    method Deallocate(ptr: nat, size: nat)
      requires Valid()
      modifies this
      ensures Valid() && |memory| == old(|memory|)
      ensures forall i :: 0 <= i < |memory| ==>
        memory[i] == if ptr + Round8(size) <= |memory| && ptr <= i < ptr + Round8(size) then 0 else old(memory)[i]
      ensures model == old(model) && config == old(config) && metadata == old(metadata)
    {
      var alignedSize := Round8(size);
      if ptr + alignedSize <= |memory| {
        SpliceFacts(memory, ptr, Zeros(alignedSize));
        memory := Splice(memory, ptr, Zeros(alignedSize));
      }
    }

    /** Empties the buffer and drops the model and its metadata; the configuration stays. */
    method Cleanup()
      modifies this
      ensures Valid()
      ensures memory == [] && model == None && metadata == None && config == old(config)
    {
      memory := [];
      model := None;
      metadata := None;
    }

    /** `read_config`: the seven fields at `ptr`, or None where they would run past the buffer. */
    function ReadConfig(ptr: nat): (r: Option<ModelConfig>)
      reads this
      ensures r.Some? <==> ptr + 28 <= |memory|
      ensures r.Some? ==> r.value.optimizationLevel < 256 && r.value.timeout < TWO32
    {
      if ptr + 28 <= |memory| then Some(DecodeModelConfig(memory[ptr..ptr + 28])) else None
    }

    /** Copies a string and its terminator into a fresh allocation of its length plus one. */
    method WriteString(s: seq<byte>) returns (ptr: nat)
      requires Valid()
      modifies this
      ensures Valid()
      ensures ptr == old(|memory|) && memory == old(memory) + StringImage(s)
      ensures model == old(model) && config == old(config) && metadata == old(metadata)
      ensures NoNul(s) ==> CStringAt(memory, ptr) == Some(s)
    {
      ptr := Allocate(|s| + 1);
      StringStored(old(memory), s, Round8(|s| + 1));
      memory := Splice(memory, ptr, s + [0]);
      if NoNul(s) {
        StringReadsBack(old(memory), s);
      }
    }

    /** Writes the metadata as a NUL-terminated JSON string, or fails when there is none. */
    method WriteMetadata(env: Runtime) returns (r: Result<nat, string>)
      requires Valid()
      modifies this
      ensures Valid()
      ensures model == old(model) && config == old(config) && metadata == old(metadata)
      ensures metadata.None? ==> r == Err("Metadata not available") && memory == old(memory)
      ensures metadata.Some? ==>
        r == Ok(old(|memory|)) && memory == old(memory) + StringImage(env.toJson(metadata.value))
    {
      if metadata.None? {
        return Err("Metadata not available");
      }
      var json := env.toJson(metadata.value);
      var ptr := WriteString(json);
      r := Ok(ptr);
    }

    /**
     * `load_model`: the configuration at `configPtr` replaces the current
     * one before anything else; the header selects a loader, and any other
     * header is rejected with the model left as it was. A loaded model is
     * installed, described, and its metadata written, and then the load
     * succeeds; when describing it fails, the new model stays installed
     * next to the old metadata.
     */
    method LoadModel(data: seq<byte>, configPtr: nat, env: Runtime) returns (r: Result<nat, string>)
      requires Valid() && ReadConfig(configPtr).Some?
      modifies this
      ensures Valid()
      ensures config == old(ReadConfig(configPtr)).value
      ensures FormatOf(data).None? ==>
        r == Err("Unsupported model format") && model == old(model) && metadata == old(metadata) && memory == old(memory)
      ensures FormatOf(data).Some? && Loader(env, FormatOf(data).value)(data, config).Err? ==>
        r == Err(Loader(env, FormatOf(data).value)(data, config).error)
        && model == old(model) && metadata == old(metadata) && memory == old(memory)
      ensures (FormatOf(data).Some? && Loader(env, FormatOf(data).value)(data, config).Ok?
               && env.describe(Loader(env, FormatOf(data).value)(data, config).value).Err?) ==>
        r == Err(env.describe(Loader(env, FormatOf(data).value)(data, config).value).error)
        && model == Some(Loader(env, FormatOf(data).value)(data, config).value)
        && metadata == old(metadata) && memory == old(memory)
      ensures (FormatOf(data).Some? && Loader(env, FormatOf(data).value)(data, config).Ok?
               && env.describe(Loader(env, FormatOf(data).value)(data, config).value).Ok?) ==> r.Ok?
      ensures r.Ok? ==> FormatOf(data).Some? && model.Some? && metadata.Some?
      ensures r.Ok? ==> Loader(env, FormatOf(data).value)(data, config) == Ok(model.value)
      ensures r.Ok? ==> env.describe(model.value) == Ok(metadata.value)
      ensures r.Ok? ==> r.value == old(|memory|) && memory == old(memory) + StringImage(env.toJson(metadata.value))
    {
      config := ReadConfig(configPtr).value;
      var loaded: Result<LoadedModel, string>;
      match FormatOf(data) {
        case Some(Onnx) =>
          loaded := env.loadOnnx(data, config);
        case Some(TensorFlow) =>
          loaded := env.loadTensorflow(data, config);
        case None =>
          return Err("Unsupported model format");
      }
      if loaded.Err? {
        return Err(loaded.error);
      }
      model := Some(loaded.value);
      var described := env.describe(loaded.value);
      if described.Err? {
        return Err(described.error);
      }
      metadata := Some(described.value);
      r := WriteMetadata(env);
    }

    /** Writes the rank, each dimension, then the payload words after the bytes already written. */
    method StoreWords(offset: nat, words: seq<nat>, ghost base: seq<byte>, ghost written: seq<byte>, ghost room: nat)
      requires memory == base + written + Zeros(room) && offset == |base| + |written| && 4 * |words| <= room
      modifies this
      ensures memory == base + (written + U32Seq(words)) + Zeros(room - 4 * |words|)
      ensures model == old(model) && config == old(config) && metadata == old(metadata)
    {
      for i := 0 to |words|
        invariant memory == base + (written + U32Seq(words[..i])) + Zeros(room - 4 * i)
        invariant model == old(model) && config == old(config) && metadata == old(metadata)
      {
        ghost var done := written + U32Seq(words[..i]);
        AppendStored(base, done, U32Bytes(words[i]), room - 4 * i);
        memory := Splice(memory, offset + 4 * i, U32Bytes(words[i]));
        assert words[..i + 1] == words[..i] + [words[i]];
        U32SeqSnoc(words[..i], words[i]);
        Assoc(written, U32Seq(words[..i]), U32Bytes(words[i]));
      }
      assert words[..|words|] == words;
    }

    /** Writes one tensor's fields at `offset`, the end of what is already written. */
    method StoreTensor(offset: nat, shape: seq<nat>, data: seq<F32>, ghost base: seq<byte>, ghost written: seq<byte>, ghost room: nat)
      requires memory == base + written + Zeros(room) && offset == |base| + |written|
      requires 4 * (1 + |shape|) + 4 * |data| <= room
      modifies this
      ensures memory == base + (written + TensorBytes(shape, data)) + Zeros(room - |TensorBytes(shape, data)|)
      ensures model == old(model) && config == old(config) && metadata == old(metadata)
    {
      AppendStored(base, written, U32Bytes(|shape|), room);
      memory := Splice(memory, offset, U32Bytes(|shape|));
      ghost var w1 := written + U32Bytes(|shape|);
      StoreWords(offset + 4, shape, base, w1, room - 4);
      ghost var w2 := w1 + U32Seq(shape);
      AppendStored(base, w2, U32Seq(data), room - 4 - 4 * |shape|);
      memory := Splice(memory, offset + 4 + 4 * |shape|, U32Seq(data));
      Assoc(written, U32Bytes(|shape|), U32Seq(shape));
      Assoc(written, U32Bytes(|shape|) + U32Seq(shape), U32Seq(data));
    }

    /**
     * `write_tensor`: fails unless the array's elements are contiguous;
     * otherwise allocates `4 * (1 + rank) + 4 * n` bytes and writes the
     * rank, the dimensions and the payload at the returned offset.
     */
    method WriteTensor(t: NdArray) returns (r: Result<nat, string>)
      requires Valid()
      modifies this
      ensures Valid()
      ensures model == old(model) && config == old(config) && metadata == old(metadata)
      ensures AsSlice(t).None? ==> r == Err("Failed to get tensor data") && memory == old(memory)
      ensures AsSlice(t).Some? ==> r == Ok(old(|memory|)) && memory == old(memory) + TensorImage(t.shape, t.data)
    {
      var slice := AsSlice(t);
      if slice.None? {
        return Err("Failed to get tensor data");
      }
      var data := slice.value;
      var totalSize := 4 * (1 + |t.shape|) + 4 * |data|;
      var ptr := Allocate(totalSize);
      assert memory == old(memory) + [] + Zeros(Round8(totalSize));
      StoreTensor(ptr, t.shape, data, old(memory), [], Round8(totalSize));
      r := Ok(ptr);
    }

    /**
     * `preprocess` on a decoded buffer and parsed options: the pipeline's
     * error becomes its message; a result is written as a tensor.
     */
    method Preprocess(lib: ImageLibrary, ops: FloatOps, data: seq<byte>, options: PreprocessingOptions) returns (r: Result<nat, string>)
      requires Valid() && Lawful(lib)
      modifies this
      ensures Valid()
      ensures model == old(model) && config == old(config) && metadata == old(metadata)
      ensures Processed(lib, ops, options, data).Err? ==>
        r == Err(PreprocessingMessage(Processed(lib, ops, options, data).error)) && memory == old(memory)
      ensures Processed(lib, ops, options, data).Ok? ==>
        var t := Processed(lib, ops, options, data).value;
        r == Ok(old(|memory|)) && memory == old(memory) + TensorImage(t.shape, t.data)
    {
      var processed := Process(lib, ops, options, data);
      if processed.Err? {
        return Err(PreprocessingMessage(processed.error));
      }
      r := WriteTensor(processed.value);
    }

    /**
     * `write_inference_results`: a first pass adds up the size and fails on
     * the first output without `f32` data; the second pass writes the output
     * count, then each output's rank, dimensions and payload back to back.
     */
    method WriteInferenceResults(outputs: seq<Tensor>) returns (r: Result<nat, string>)
      requires Valid()
      modifies this
      ensures Valid()
      ensures model == old(model) && config == old(config) && metadata == old(metadata)
      ensures !AllF32(outputs) ==> r == Err(FirstError(outputs).value) && memory == old(memory)
      ensures AllF32(outputs) ==> r == Ok(old(|memory|)) && memory == old(memory) + ResultsImage(outputs)
    {
      var total := TotalSize(outputs);
      if total.Err? {
        return Err(total.error);
      }
      var totalSize := total.value;
      ResultsSizeExact(outputs);
      assert totalSize == 4 + |ResultsBytes(outputs)|;
      var ptr := Allocate(totalSize);
      ghost var base, len := old(memory), |memory|;
      ghost var room := Round8(totalSize);
      assert memory == base + [] + Zeros(room);
      AppendStored(base, [], U32Bytes(|outputs|), room);
      memory := Splice(memory, ptr, U32Bytes(|outputs|));
      assert [] + U32Bytes(|outputs|) == U32Bytes(|outputs|);
      StoreResults(ptr + 4, outputs, base, U32Bytes(|outputs|), room - 4);
      FillsAllocation(base, U32Bytes(|outputs|) + ResultsBytes(outputs), room);
      assert |memory| == len;
      r := Ok(ptr);
    }

    /** The second pass of `write_inference_results`: each output's fields, written at `offset` one after the other. */
    method StoreResults(offset: nat, outputs: seq<Tensor>, ghost base: seq<byte>, ghost written: seq<byte>, ghost room: nat)
      requires AllF32(outputs) && |ResultsBytes(outputs)| <= room
      requires memory == base + written + Zeros(room) && offset == |base| + |written|
      modifies this
      ensures memory == base + (written + ResultsBytes(outputs)) + Zeros(room - |ResultsBytes(outputs)|)
      ensures model == old(model) && config == old(config) && metadata == old(metadata)
    {
      var at := offset;
      ghost var done: seq<byte>, left: nat := written, room;
      assert outputs[..0] == [];
      for i := 0 to |outputs|
        invariant AllF32(outputs[..i]) && done == written + ResultsBytes(outputs[..i])
        invariant |ResultsBytes(outputs[..i])| + left == room
        invariant at == |base| + |done| && memory == base + done + Zeros(left)
        invariant model == old(model) && config == old(config) && metadata == old(metadata)
      {
        var data := outputs[i].data.value;
        ResultsPrefix(outputs, i);
        StoreTensor(at, outputs[i].shape, data, base, done, left);
        Assoc(written, ResultsBytes(outputs[..i]), TensorBytes(outputs[i].shape, data));
        done, left := done + TensorBytes(outputs[i].shape, data), left - |TensorBytes(outputs[i].shape, data)|;
        at := at + 4 * (1 + |outputs[i].shape|) + 4 * |data|;
      }
      assert outputs[..|outputs|] == outputs;
    }
  }

  /** The first pass of `write_inference_results`: the total size, or the error of the first output without `f32` data. */
  method TotalSize(outputs: seq<Tensor>) returns (r: Result<nat, string>)
    ensures AllF32(outputs) ==> r == Ok(4 + ResultsSize(outputs))
    ensures !AllF32(outputs) ==> r == Err(FirstError(outputs).value)
  {
    var totalSize := 4;
    for i := 0 to |outputs|
      invariant AllF32(outputs[..i]) && totalSize == 4 + ResultsSize(outputs[..i])
      invariant FirstError(outputs) == FirstError(outputs[i..])
    {
      assert outputs[i..][0] == outputs[i] && outputs[i..][1..] == outputs[i + 1..];
      if outputs[i].data.Err? {
        return Err(outputs[i].data.error);
      }
      SizeStep(outputs, i);
      totalSize := totalSize + 4 * (1 + |outputs[i].shape|) + 4 * |outputs[i].data.value|;
    }
    assert outputs[..|outputs|] == outputs;
    r := Ok(totalSize);
  }

  /** The size of one more output. */
  lemma SizeStep(outputs: seq<Tensor>, i: nat)
    requires i < |outputs| && AllF32(outputs[..i]) && outputs[i].data.Ok?
    ensures AllF32(outputs[..i + 1])
    ensures ResultsSize(outputs[..i + 1]) ==
      ResultsSize(outputs[..i]) + 4 * (1 + |outputs[i].shape|) + 4 * |outputs[i].data.value|
  {
    assert outputs[..i + 1][..i] == outputs[..i];
  }

  /** The next output's fields follow the ones before it, within the precomputed size. */
  lemma ResultsPrefix(outputs: seq<Tensor>, i: nat)
    requires AllF32(outputs) && i < |outputs|
    ensures AllF32(outputs[..i + 1])
    ensures ResultsBytes(outputs[..i + 1]) ==
      ResultsBytes(outputs[..i]) + TensorBytes(outputs[i].shape, outputs[i].data.value)
    ensures |ResultsBytes(outputs[..i + 1])| <= |ResultsBytes(outputs)|
  {
    assert outputs[..i + 1][..i] == outputs[..i];
    ResultsGrow(outputs, i + 1);
  }

  /** The bytes of a prefix of the outputs are no more than the bytes of all of them. */
  lemma {:induction false} ResultsGrow(outputs: seq<Tensor>, n: nat)
    requires AllF32(outputs) && n <= |outputs|
    ensures |ResultsBytes(outputs[..n])| <= |ResultsBytes(outputs)|
    decreases |outputs| - n
  {
    if n < |outputs| {
      ResultsGrow(outputs, n + 1);
      assert outputs[..n + 1][..n] == outputs[..n];
    } else {
      assert outputs[..n] == outputs;
    }
  }
}
