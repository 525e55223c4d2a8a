/**
 * The document processor's dispatcher: it recognises a document by its
 * leading magic bytes, hands it to the PDF, DOCX or image handler, turns
 * a handler error or an unknown type into an error record, turns a panic
 * into a fixed "internal error" record, and writes the serialised record
 * at the base of its single buffer.
 *
 * The handlers, option parsing, JSON serialisation and the clock are
 * library work and enter as parameters.
 */
module Document {
  import opened Wrappers
  import opened Bytes

  // ---------------------------------------------------------------------
  // File type detection.

  datatype FileType = Pdf | Docx | Image | Unknown

  /** The name `detect_file_type` returns for a type. */
  function FileTypeName(t: FileType): string
  {
    match t
    case Pdf => "pdf"
    case Docx => "docx"
    case Image => "image"
    case Unknown => "unknown"
  }

  /** `%PDF` in ASCII. */
  const PDF_MAGIC: seq<byte> := [0x25, 0x50, 0x44, 0x46]
  /** The local file header of a ZIP archive, which a DOCX file is. */
  const ZIP_MAGIC: seq<byte> := [0x50, 0x4B, 0x03, 0x04]
  /** The start-of-image marker of a JPEG file. */
  const JPEG_MAGIC: seq<byte> := [0xFF, 0xD8, 0xFF]

  /** The header that identifies a known type. */
  function Signature(t: FileType): seq<byte>
    requires t != Unknown
  {
    match t
    case Pdf => PDF_MAGIC
    case Docx => ZIP_MAGIC
    case Image => JPEG_MAGIC
  }

  /**
   * `detect_file_type`: the PDF header is tested first, then the ZIP
   * header, then the JPEG marker. A document is of a known type exactly
   * when it starts with that type's signature.
   */
  function DetectFileType(data: seq<byte>): (t: FileType)
    ensures t == Pdf <==> StartsWith(data, PDF_MAGIC)
    ensures t == Docx <==> StartsWith(data, ZIP_MAGIC)
    ensures t == Image <==> StartsWith(data, JPEG_MAGIC)
    ensures t == Unknown <==>
      !StartsWith(data, PDF_MAGIC) && !StartsWith(data, ZIP_MAGIC) && !StartsWith(data, JPEG_MAGIC)
  {
    SignaturesExclusive(data);
    if StartsWith(data, PDF_MAGIC) then Pdf
    else if StartsWith(data, ZIP_MAGIC) then Docx
    else if StartsWith(data, JPEG_MAGIC) then Image
    else Unknown
  }

  /** The three signatures differ in their first byte, so no document starts with two of them. */
  lemma SignaturesExclusive(data: seq<byte>)
    ensures !(StartsWith(data, PDF_MAGIC) && StartsWith(data, ZIP_MAGIC))
    ensures !(StartsWith(data, PDF_MAGIC) && StartsWith(data, JPEG_MAGIC))
    ensures !(StartsWith(data, ZIP_MAGIC) && StartsWith(data, JPEG_MAGIC))
  {
    assert StartsWith(data, PDF_MAGIC) ==> data[0] == 0x25;
    assert StartsWith(data, ZIP_MAGIC) ==> data[0] == 0x50;
    assert StartsWith(data, JPEG_MAGIC) ==> data[0] == 0xFF;
  }

  /** Detection that tests the signatures of `order`, in that order. */
  function ClassifyInOrder(data: seq<byte>, order: seq<FileType>): FileType
    requires Unknown !in order
  {
    if order == [] then Unknown
    else if StartsWith(data, Signature(order[0])) then order[0]
    else ClassifyInOrder(data, order[1..])
  }

  /**
   * The order of the tests does not matter: testing any arrangement of
   * the known types finds the type `detect_file_type` finds, when that
   * type is among them, and nothing otherwise.
   */
  lemma {:induction false} OrderIrrelevant(data: seq<byte>, order: seq<FileType>)
    requires Unknown !in order
    ensures ClassifyInOrder(data, order) == if DetectFileType(data) in order then DetectFileType(data) else Unknown
  {
    if order != [] {
      OrderIrrelevant(data, order[1..]);
      assert order == [order[0]] + order[1..];
    }
  }

  /** In particular every permutation of the three tests classifies as the source's order does. */
  lemma AnyPermutation(data: seq<byte>, order: seq<FileType>)
    requires multiset(order) == multiset([Pdf, Docx, Image])
    ensures ClassifyInOrder(data, order) == DetectFileType(data)
  {
    assert Unknown !in multiset(order);
    if DetectFileType(data) != Unknown {
      assert DetectFileType(data) in multiset(order);
    }
    OrderIrrelevant(data, order);
  }

  // ---------------------------------------------------------------------
  // Processing records.

  datatype DocumentMetadata = DocumentMetadata(
    fileSize: nat,
    pageCount: nat,
    fileType: string,
    createdAt: string,
    lastModified: string)

  datatype ProcessingOptions = ProcessingOptions(
    extractText: bool,
    extractImages: bool,
    performOcr: bool,
    language: Option<string>,
    quality: Option<string>)

  datatype ProcessingResult = ProcessingResult(
    metadata: DocumentMetadata,
    text: Option<string>,
    images: Option<seq<seq<byte>>>,
    error: Option<string>)

  /** What a handler did: returned a result or an error message, or panicked. */
  datatype HandlerOutcome = Returned(result: Result<ProcessingResult, string>) | Panicked

  /** The PDF, DOCX and image handlers. */
  datatype Handlers = Handlers(
    pdf: (seq<byte>, ProcessingOptions) -> HandlerOutcome,
    docx: (seq<byte>, ProcessingOptions) -> HandlerOutcome,
    image: (seq<byte>, ProcessingOptions) -> HandlerOutcome)

  /** The routing of `process_document`: the handler of the detected type, or an error for an unknown one. */
  function Route(h: Handlers, data: seq<byte>, options: ProcessingOptions): HandlerOutcome
  {
    match DetectFileType(data)
    case Pdf => h.pdf(data, options)
    case Docx => h.docx(data, options)
    case Image => h.image(data, options)
    case Unknown => Returned(Err("Unsupported file type"))
  }

  /** The record of a failed document: its size, no pages, type "unknown", and the message. */
  function ErrorRecord(fileSize: nat, message: string, now: string): ProcessingResult
  {
    ProcessingResult(DocumentMetadata(fileSize, 0, "unknown", now, now), None, None, Some(message))
  }

  /** The record written when processing panics. */
  function PanicRecord(now: string): ProcessingResult
  {
    ErrorRecord(0, "Internal processing error", now)
  }

  /**
   * The body run under `catch_unwind`: None when it panics, that is when
   * the options do not parse or the handler panics; otherwise the
   * handler's result, or the error record of the document.
   */
  function Attempt(h: Handlers, data: seq<byte>, options: Option<ProcessingOptions>, now: string): (a: Option<ProcessingResult>)
    ensures a.None? <==> options.None? || Route(h, data, options.value) == Panicked
  {
    match options
    case None => None
    case Some(opts) =>
      match Route(h, data, opts)
      case Panicked => None
      case Returned(Ok(res)) => Some(res)
      case Returned(Err(message)) => Some(ErrorRecord(|data|, message, now))
  }

  /**
   * The record `process_document` serialises, whatever happens: the
   * handler's own result, the error record of the document when the
   * handler fails or the type is unknown, the panic record otherwise.
   */
  function DocumentResult(h: Handlers, data: seq<byte>, options: Option<ProcessingOptions>, now: string): (r: ProcessingResult)
    ensures options.Some? && Route(h, data, options.value).Returned? && Route(h, data, options.value).result.Ok? ==>
      r == Route(h, data, options.value).result.value
    ensures options.Some? && Route(h, data, options.value).Returned? && Route(h, data, options.value).result.Err? ==>
      r == ErrorRecord(|data|, Route(h, data, options.value).result.error, now)
    ensures options.None? || Route(h, data, options.value).Panicked? ==>
      r == PanicRecord(now) && r.metadata.fileSize == 0 && r.error == Some("Internal processing error")
    ensures !(options.Some? && Route(h, data, options.value).Returned? && Route(h, data, options.value).result.Ok?) ==>
      r.error.Some? && r.text.None? && r.images.None? && r.metadata.pageCount == 0 && r.metadata.fileType == "unknown"
  {
    match Attempt(h, data, options, now)
    case Some(res) => res
    case None => PanicRecord(now)
  }

  /** An unrecognised document is reported as unsupported, with its own size and no content. */
  lemma UnsupportedDocument(h: Handlers, data: seq<byte>, opts: ProcessingOptions, now: string)
    requires DetectFileType(data) == Unknown
    ensures DocumentResult(h, data, Some(opts), now) == ErrorRecord(|data|, "Unsupported file type", now)
    ensures DocumentResult(h, data, Some(opts), now).metadata.fileSize == |data|
  {
  }

  // ---------------------------------------------------------------------
  // The processor and its buffer.

  /**
   * `Vec::resize`: the first `size` bytes of `m`, followed by zeros when
   * `size` is beyond its length.
   */
  function Resized(m: seq<byte>, size: nat): (r: seq<byte>)
    ensures |r| == size
    ensures forall i :: 0 <= i < size && i < |m| ==> r[i] == m[i]
    ensures forall i :: |m| <= i < size ==> r[i] == 0
  {
    if size <= |m| then m[..size] else m + Zeros(size - |m|)
  }

  /** Shrinking forgets: bytes cut off by a smaller resize come back as zeros. */
  lemma ShrinkThenGrow(m: seq<byte>, small: nat, size: nat)
    requires small <= |m| && small <= size
    ensures forall i :: small <= i < size ==> Resized(Resized(m, small), size)[i] == 0
    ensures Resized(Resized(m, small), size)[..small] == m[..small]
  {
    var r := Resized(Resized(m, small), size);
    assert forall i :: 0 <= i < small ==> r[i] == m[i];
  }

  /** Resizing to the current length changes nothing. */
  lemma ResizeSameLength(m: seq<byte>)
    ensures Resized(m, |m|) == m
  {
  }

  class DocumentProcessor {
    var memory: seq<byte>

    constructor ()
      ensures memory == []
    {
      memory := [];
    }

    /** `malloc`: the buffer becomes exactly `size` bytes long, and its base is returned every time. */
    method Malloc(size: nat) returns (ptr: nat)
      modifies this
      ensures ptr == 0
      ensures memory == Resized(old(memory), size)
    {
      memory := Resized(memory, size);
      ptr := 0;
    }

    /** `free`: the buffer is emptied. */
    method Free()
      modifies this
      ensures memory == []
    {
      memory := [];
    }

    /**
     * `process_document`: the result record, or the internal-error record
     * when processing panics, is serialised with `encode`; the buffer is
     * resized to the serialised length and the bytes copied to its base.
     */
    method ProcessDocument(h: Handlers, data: seq<byte>, options: Option<ProcessingOptions>,
                           encode: ProcessingResult -> seq<byte>, now: string) returns (ptr: nat)
      modifies this
      ensures ptr == 0
      ensures memory == encode(DocumentResult(h, data, options, now))
    {
      var json: seq<byte>;
      match Attempt(h, data, options, now) {
        case Some(res) => json := encode(res);
        case None => json := encode(PanicRecord(now));
      }
      ptr := Malloc(|json|);
      SpliceFacts(memory, ptr, json);
      memory := Splice(memory, ptr, json);
    }
  }
}
