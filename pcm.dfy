/**
 * `PcmDecoder` of the `src/io` tree: turns an encoded byte stream into samples. Building
 * one checks that a decoded block is a whole number of encoded blocks; a read asks the
 * inner stream for whole sample blocks and turns the byte count it gets into a sample
 * count, refusing counts that end inside a block.
 */
module Pcm {
  import opened Outcomes
  import opened Ints
  import opened Syphon

  // ---------------------------------------------------------------------------
  // PcmDecoder::new
  // ---------------------------------------------------------------------------

  /** `decoded.block_size * sample_format.size()`: the bytes one decoded block takes. */
  function DecodedBlockBytes(spec: EncodedStreamSpec): nat {
    spec.decodedSpec.blockSize * spec.decodedSpec.sampleFormat.Size()
  }

  /**
   * The check `new` makes: BadRequest unless a decoded block's bytes split into whole
   * encoded blocks. An encoded block size of 0 panics (`% 0`).
   */
  function CheckBlockLayout(spec: EncodedStreamSpec): (r: Result<(), SyphonError>)
    requires spec.blockSize > 0
    ensures r.Ok? <==> DecodedBlockBytes(spec) % spec.blockSize == 0
    ensures r.Ok? ==> (DecodedBlockBytes(spec) / spec.blockSize) * spec.blockSize == DecodedBlockBytes(spec)
    ensures r.Err? ==> r.error == BadRequest
  {
    if DecodedBlockBytes(spec) % spec.blockSize != 0 then Err(BadRequest) else Ok(())
  }

  /** Stereo 16-bit samples (4 bytes a block) over 2-byte or 4-byte encoded blocks pass; over 3-byte blocks they do not. */
  lemma BlockLayoutExamples()
    ensures CheckBlockLayout(EncodedStreamSpec(2, SampleStreamSpec(I16, 2))) == Ok(())
    ensures CheckBlockLayout(EncodedStreamSpec(4, SampleStreamSpec(I16, 2))) == Ok(())
    ensures CheckBlockLayout(EncodedStreamSpec(3, SampleStreamSpec(I16, 2))) == Err(BadRequest)
  {
  }

  // ---------------------------------------------------------------------------
  // Read arithmetic
  // ---------------------------------------------------------------------------

  /** `n_samples`: the buffer length rounded down to whole decoded blocks. */
  function SampleRequest(bufLen: nat, blockSize: nat): (r: nat)
    requires blockSize > 0
    ensures r <= bufLen && r % blockSize == 0 && bufLen < r + blockSize
  {
    AlignDown(bufLen, blockSize)
  }

  /**
   * What a read returns for `n` bytes from the inner stream, with `blockSize` samples a
   * block and `sampleSize` bytes a sample: a sample count when `n` is whole blocks,
   * StreamMismatch otherwise.
   */
  function DecodeCount(n: nat, blockSize: nat, sampleSize: nat): (r: Result<nat, SyphonError>)
    requires blockSize > 0 && sampleSize > 0
    ensures r.Ok? <==> n % (blockSize * sampleSize) == 0
    ensures r.Ok? ==> r.value * sampleSize == n && r.value % blockSize == 0
    ensures r.Err? ==> r.error == StreamMismatch
  {
    if n % (blockSize * sampleSize) == 0 then
      WholeBlocksDecode(n, blockSize, sampleSize);
      Ok(n / sampleSize)
    else Err(StreamMismatch)
  }

  /** Whole blocks of bytes divide into whole blocks of samples. */
  lemma WholeBlocksDecode(n: nat, blockSize: nat, sampleSize: nat)
    requires blockSize > 0 && sampleSize > 0 && n % (blockSize * sampleSize) == 0
    ensures n % sampleSize == 0 && (n / sampleSize) * sampleSize == n && (n / sampleSize) % blockSize == 0
  {
    var q := n / (blockSize * sampleSize);
    assert n == q * (blockSize * sampleSize);
    assert n == (q * blockSize) * sampleSize;
    DivModUnique(n, sampleSize, q * blockSize, 0);
    MultipleOf(q, blockSize);
  }

  /** A read of whole blocks never reports more samples than it asked bytes for. */
  lemma DecodeWithinRequest(n: nat, request: nat, blockSize: nat, sampleSize: nat)
    requires blockSize > 0 && sampleSize > 0 && n <= request * sampleSize
    requires DecodeCount(n, blockSize, sampleSize).Ok?
    ensures DecodeCount(n, blockSize, sampleSize).value <= request
  {
    var k := DecodeCount(n, blockSize, sampleSize).value;
    if k > request {
      MulGrows(request, k, sampleSize);
    }
  }

  lemma MulGrows(a: nat, b: nat, c: nat)
    requires a < b && c > 0
    ensures a * c < b * c
  {
    assert b * c == a * c + (b - a) * c;
  }

  // ---------------------------------------------------------------------------
  // into_sample_reader_ref
  // ---------------------------------------------------------------------------

  /** The `SampleReaderRef` variants, one per sample type. */
  datatype SampleReaderRef =
    | ReaderU8 | ReaderU16 | ReaderU32 | ReaderU64
    | ReaderI8 | ReaderI16 | ReaderI32 | ReaderI64
    | ReaderF32 | ReaderF64

  /** The sample format a reader variant reads. */
  function FormatOf(v: SampleReaderRef): SampleFormat {
    match v
    case ReaderU8 => U8
    case ReaderU16 => U16
    case ReaderU32 => U32
    case ReaderU64 => U64
    case ReaderI8 => I8
    case ReaderI16 => I16
    case ReaderI32 => I32
    case ReaderI64 => I64
    case ReaderF32 => F32
    case ReaderF64 => F64
  }

  /** `into_sample_reader_ref`: the variant reading exactly the decoded spec's sample format. */
  function ReaderFor(f: SampleFormat): (v: SampleReaderRef)
    ensures FormatOf(v) == f
  {
    match f
    case U8 => ReaderU8
    case U16 => ReaderU16
    case U32 => ReaderU32
    case U64 => ReaderU64
    case I8 => ReaderI8
    case I16 => ReaderI16
    case I32 => ReaderI32
    case I64 => ReaderI64
    case F32 => ReaderF32
    case F64 => ReaderF64
  }

  /** Every variant is picked for exactly one format: the choice is a bijection. */
  lemma ReaderForIsBijective(v: SampleReaderRef, f: SampleFormat)
    ensures ReaderFor(FormatOf(v)) == v
    ensures ReaderFor(f) == v <==> FormatOf(v) == f
  {
  }

  // ---------------------------------------------------------------------------
  // PcmDecoder
  // ---------------------------------------------------------------------------

  /** An encoded stream: its spec, scripted replies to reads, and the byte lengths it was asked for. */
  class EncodedStreamReader {
    const spec: EncodedStreamSpec
    var replies: seq<Result<nat, IoError>>
    ghost var requests: seq<nat>

    constructor (spec: EncodedStreamSpec, replies: seq<Result<nat, IoError>>)
      ensures this.spec == spec && this.replies == replies && requests == []
    {
      this.spec := spec;
      this.replies := replies;
      requests := [];
    }

    /** Fills at most `len` bytes. */
    method Read(len: nat) returns (r: Result<nat, IoError>)
      requires replies != []
      modifies this
      ensures r == match old(replies)[0] case Ok(k) => Ok(Min(k, len)) case Err(e) => Err(e)
      ensures replies == old(replies)[1..] && requests == old(requests) + [len]
    {
      r := match replies[0] case Ok(k) => Ok(Min(k, len)) case Err(e) => Err(e);
      replies := replies[1..];
      requests := requests + [len];
    }
  }

  class PcmDecoder {
    const reader: EncodedStreamReader

    constructor Init(reader: EncodedStreamReader)
      ensures this.reader == reader
    {
      this.reader := reader;
    }

    /** `new`: a decoder over `reader`, or BadRequest from the block-layout check. */
    static method New(reader: EncodedStreamReader) returns (r: Result<PcmDecoder, SyphonError>)
      requires reader.spec.blockSize > 0
      ensures CheckBlockLayout(reader.spec).Err? ==> r == Err(BadRequest)
      ensures CheckBlockLayout(reader.spec).Ok? ==> r.Ok? && fresh(r.value) && r.value.reader == reader
    {
      var spec := reader.spec;
      var bytesPerSampleBlock := spec.decodedSpec.blockSize * spec.decodedSpec.sampleFormat.Size();
      if bytesPerSampleBlock % spec.blockSize != 0 {
        return Err(BadRequest);
      }
      var d := new PcmDecoder.Init(reader);
      return Ok(d);
    }

    /**
     * `read` into a buffer of `bufLen` samples of `sampleSize` bytes each: asks for the
     * bytes of `SampleRequest` samples and decodes the byte count it gets; an I/O error
     * is converted.
     */
    method Read(bufLen: nat, sampleSize: nat) returns (r: Result<nat, SyphonError>)
      requires reader.spec.decodedSpec.blockSize > 0 && sampleSize > 0 && reader.replies != []
      modifies reader
      ensures var blockSize := reader.spec.decodedSpec.blockSize;
        var request := SampleRequest(bufLen, blockSize) * sampleSize;
        reader.requests == old(reader.requests) + [request]
        && reader.replies == old(reader.replies)[1..]
        && match old(reader.replies)[0]
           case Err(e) => r == Err(Io(e))
           case Ok(k) => r == DecodeCount(Min(k, request), blockSize, sampleSize)
      ensures r.Ok? ==> r.value <= bufLen && r.value % reader.spec.decodedSpec.blockSize == 0
    {
      var spec := reader.spec.decodedSpec;
      var nSamples := bufLen - bufLen % spec.blockSize;
      var sampleBlockSize := spec.blockSize * sampleSize;
      var read := reader.Read(nSamples * sampleSize);
      match read {
        case Ok(n) =>
          if n % sampleBlockSize == 0 {
            DecodeWithinRequest(n, nSamples, spec.blockSize, sampleSize);
            r := Ok(n / sampleSize);
          } else {
            r := Err(StreamMismatch);
          }
        case Err(e) =>
          r := Err(Io(e));
      }
    }
  }
}
