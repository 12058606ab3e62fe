/**
 * Types of the older `src/io` tree that its Wave format, PCM decoder and format lookup
 * share. This tree has its own stream spec (a block size and a sample format) and its
 * own error type; they are kept apart from the `phonic_*` crates' types.
 */
module Syphon {
  import opened Outcomes

  /** An I/O error from an inner reader or writer, identified by its kind. */
  datatype IoError = IoError(kind: nat)

  datatype SyphonError =
    | Unsupported
    | BadRequest
    | StreamMismatch
    | MissingData
      /** An I/O error converted with `into()`. */
    | Io(cause: IoError)

  /** The codecs a track may name. Only `Pcm` is told apart by the modelled code. */
  datatype SyphonCodec = Pcm | OtherCodec(id: nat)

  datatype SampleFormat = U8 | U16 | U32 | U64 | I8 | I16 | I32 | I64 | F32 | F64 {

    /** `size()`: bytes per sample. */
    function Size(): (n: nat)
      ensures n in {1, 2, 4, 8}
    {
      match this
      case U8 => 1
      case U16 => 2
      case U32 => 4
      case U64 => 8
      case I8 => 1
      case I16 => 2
      case I32 => 4
      case I64 => 8
      case F32 => 4
      case F64 => 8
    }
  }

  /** The decoded side of a stream: samples per block and their format. */
  datatype SampleStreamSpec = SampleStreamSpec(sampleFormat: SampleFormat, blockSize: nat)

  /** The encoded side: bytes per block, and the spec of the samples it decodes to. */
  datatype EncodedStreamSpec = EncodedStreamSpec(blockSize: nat, decodedSpec: SampleStreamSpec)

  /**
   * One track of a `FormatDataBuilder`. Only `codec` is read or written by the modelled
   * code; `blockSize` stands for the fields it leaves alone.
   */
  datatype TrackBuilder<C> = TrackBuilder(codec: Option<C>, blockSize: Option<nat>)

  /**
   * What identifies a container format: its file extensions, its MIME types and the
   * byte markers in its header.
   */
  datatype FormatIdentifiers = FormatIdentifiers(fileExtensions: seq<string>, mimeTypes: seq<string>, markers: seq<seq<bv8>>)

  /** The tracks of a format description being assembled, changed in place. */
  class FormatDataBuilder {
    var tracks: seq<TrackBuilder<SyphonCodec>>

    constructor (tracks: seq<TrackBuilder<SyphonCodec>>)
      ensures this.tracks == tracks
    {
      this.tracks := tracks;
    }
  }
}
