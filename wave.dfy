/**
 * The WAVE container of the `src/io` tree: its identifier table, the check that fills in
 * a WAVE track description, and the `Wave` reader/writer, which passes reads and writes
 * to the inner byte stream clamped to the data chunk and rounded down to whole blocks,
 * counting the bytes in `i`.
 */
module WaveFormat {
  import opened Outcomes
  import opened Ints
  import opened Syphon

  /** `WAVE_IDENTIFIERS`: two extensions, four MIME types, and the markers "RIFF" and "WAVE". */
  const WAVE_IDENTIFIERS: FormatIdentifiers := FormatIdentifiers(
    ["wav", "wave"],
    ["audio/vnd.wave", "audio/x-wav", "audio/wav", "audio/wave"],
    [[0x52, 0x49, 0x46, 0x46], [0x57, 0x41, 0x56, 0x45]])

  // ---------------------------------------------------------------------------
  // fill_wave_data
  // ---------------------------------------------------------------------------

  /**
   * The track list `fill_wave_data` leaves, or its error: exactly one track is allowed,
   * its codec must be unset or PCM, and it comes out as PCM with nothing else changed.
   */
  function FillWave(tracks: seq<TrackBuilder<SyphonCodec>>): (r: Result<seq<TrackBuilder<SyphonCodec>>, SyphonError>)
    ensures r.Ok? <==> |tracks| == 1 && tracks[0].codec in {None, Some(Pcm)}
    ensures r.Err? ==> r.error == Unsupported
    ensures r.Ok? ==> |r.value| == 1 && r.value[0].codec == Some(Pcm) && r.value[0].blockSize == tracks[0].blockSize
  {
    if |tracks| != 1 then Err(Unsupported)
    else if tracks[0].codec.Some? && tracks[0].codec.value != Pcm then Err(Unsupported)
    else Ok([tracks[0].(codec := Some(Pcm))])
  }

  /** Filling an already filled track list changes nothing more. */
  lemma FillWaveIdempotent(tracks: seq<TrackBuilder<SyphonCodec>>)
    requires FillWave(tracks).Ok?
    ensures FillWave(FillWave(tracks).value) == FillWave(tracks)
  {
  }

  /** A track that names another codec is refused, whatever else it says. */
  lemma FillWaveRefusesOtherCodecs(t: TrackBuilder<SyphonCodec>, id: nat)
    requires t.codec == Some(OtherCodec(id))
    ensures FillWave([t]) == Err(Unsupported)
  {
  }

  /** `fill_wave_data`: the builder's tracks are replaced by `FillWave`'s on success, untouched on error. */
  method FillWaveData(data: FormatDataBuilder) returns (r: Result<(), SyphonError>)
    modifies data
    ensures FillWave(old(data.tracks)).Ok? ==> r == Ok(()) && data.tracks == FillWave(old(data.tracks)).value
    ensures FillWave(old(data.tracks)).Err? ==> r == Err(FillWave(old(data.tracks)).error) && data.tracks == old(data.tracks)
  {
    if |data.tracks| != 1 {
      return Err(Unsupported);
    }
    var track := data.tracks[0];
    if track.codec.Some? && track.codec.value != Pcm {
      return Err(Unsupported);
    }
    data.tracks := data.tracks[0 := track.(codec := Some(Pcm))];
    return Ok(());
  }

  // ---------------------------------------------------------------------------
  // The inner byte stream
  // ---------------------------------------------------------------------------

  /** A call passed to the inner byte stream, with the number of bytes offered. */
  datatype Request = ReadRequest(len: nat) | WriteRequest(len: nat) | FlushRequest

  /** What a reply of `k` ready bytes gives a request of `len` bytes: never more than asked. */
  function Clamp(reply: Result<nat, IoError>, len: nat): (r: Result<nat, IoError>)
    ensures r.Ok? ==> r.value <= len
    ensures r.Err? <==> reply.Err?
    ensures reply.Ok? && reply.value <= len ==> r == reply
  {
    match reply
    case Ok(k) => Ok(Min(k, len))
    case Err(e) => Err(e)
  }

  /** A `Read + Write` resource with scripted replies and a log of the requests it received. */
  class ByteStream {
    var readReplies: seq<Result<nat, IoError>>
    var writeReplies: seq<Result<nat, IoError>>
    const flushReply: Result<(), IoError>
    ghost var requests: seq<Request>

    constructor (readReplies: seq<Result<nat, IoError>>, writeReplies: seq<Result<nat, IoError>>, flushReply: Result<(), IoError>)
      ensures this.readReplies == readReplies && this.writeReplies == writeReplies && this.flushReply == flushReply
      ensures requests == []
    {
      this.readReplies, this.writeReplies, this.flushReply := readReplies, writeReplies, flushReply;
      requests := [];
    }

    method Read(len: nat) returns (r: Result<nat, IoError>)
      requires readReplies != []
      modifies this
      ensures r == Clamp(old(readReplies)[0], len)
      ensures readReplies == old(readReplies)[1..] && writeReplies == old(writeReplies)
      ensures requests == old(requests) + [ReadRequest(len)]
    {
      r := Clamp(readReplies[0], len);
      readReplies := readReplies[1..];
      requests := requests + [ReadRequest(len)];
    }

    method Write(len: nat) returns (r: Result<nat, IoError>)
      requires writeReplies != []
      modifies this
      ensures r == Clamp(old(writeReplies)[0], len)
      ensures writeReplies == old(writeReplies)[1..] && readReplies == old(readReplies)
      ensures requests == old(requests) + [WriteRequest(len)]
    {
      r := Clamp(writeReplies[0], len);
      writeReplies := writeReplies[1..];
      requests := requests + [WriteRequest(len)];
    }

    method Flush() returns (r: Result<(), IoError>)
      modifies this
      ensures r == flushReply
      ensures readReplies == old(readReplies) && writeReplies == old(writeReplies)
      ensures requests == old(requests) + [FlushRequest]
    {
      r := flushReply;
      requests := requests + [FlushRequest];
    }
  }

  // ---------------------------------------------------------------------------
  // Wave
  // ---------------------------------------------------------------------------

  /** The two header fields the reader/writer uses: `fmt.block_align` and `data.byte_len`. */
  datatype WaveHeader = WaveHeader(blockAlign: u16, byteLen: u32)

  /**
   * The length passed to the inner stream: the caller's buffer, cut to the bytes left in
   * the data chunk, rounded down to whole blocks. It is the largest such length.
   */
  function RequestLen(bufLen: nat, byteLen: nat, i: nat, blockAlign: nat): (r: nat)
    requires i <= byteLen && blockAlign > 0
    ensures r <= bufLen && r <= byteLen - i && r % blockAlign == 0
    ensures Min(bufLen, byteLen - i) < r + blockAlign
    ensures r == 0 <==> Min(bufLen, byteLen - i) < blockAlign
  {
    var room := Min(bufLen, byteLen - i);
    var r := AlignDown(room, blockAlign);
    assert r < blockAlign ==> r % blockAlign == r by {
      if r < blockAlign { DivModUnique(r, blockAlign, 0, r); }
    }
    r
  }

  /** A reply whose count, after clamping, is a whole number of blocks; any other count reaches `todo!()`. */
  predicate WholeBlocks(reply: Result<nat, IoError>, len: nat, blockAlign: nat)
    requires blockAlign > 0
  {
    reply.Err? || Min(reply.value, len) % blockAlign == 0
  }

  /** Every count the inner stream returns is added to `i`, which then stays inside the data chunk. */
  lemma CounterStaysInData(i: nat, n: nat, bufLen: nat, h: WaveHeader)
    requires h.blockAlign > 0 && i <= h.byteLen && i % h.blockAlign == 0
    requires n <= RequestLen(bufLen, h.byteLen, i, h.blockAlign) && n % h.blockAlign == 0
    ensures i + n <= h.byteLen && (i + n) % h.blockAlign == 0
  {
    var a := h.blockAlign;
    DivModUnique(i + n, a, i / a + n / a, 0);
  }

  class Wave {
    const header: WaveHeader
    const inner: ByteStream
    var i: usize

    ghost predicate Valid()
      reads this
    {
      header.blockAlign > 0 && i <= header.byteLen && i % header.blockAlign == 0
    }

    /** A `Wave` over `inner` once its header is known; nothing of the data has passed yet. */
    constructor (header: WaveHeader, inner: ByteStream)
      requires header.blockAlign > 0
      ensures this.header == header && this.inner == inner && i == 0 && Valid()
    {
      this.header := header;
      this.inner := inner;
      i := 0;
    }

    /** `Read::read`: asks the inner stream for `RequestLen` bytes and counts what it returns. */
    method Read(bufLen: nat) returns (r: Result<nat, IoError>)
      requires Valid() && inner.readReplies != []
      requires WholeBlocks(inner.readReplies[0], RequestLen(bufLen, header.byteLen, i, header.blockAlign), header.blockAlign)
      modifies this, inner
      ensures Valid()
      ensures var len := RequestLen(bufLen, header.byteLen, old(i), header.blockAlign);
        r == Clamp(old(inner.readReplies)[0], len)
        && inner.requests == old(inner.requests) + [ReadRequest(len)]
        && i == old(i) + (if r.Ok? then r.value else 0)
      ensures inner.readReplies == old(inner.readReplies)[1..] && inner.writeReplies == old(inner.writeReplies)
    {
      var len := bufLen;
      len := Min(len, header.byteLen - i);
      len := len - len % header.blockAlign;
      var n :- inner.Read(len);
      CounterStaysInData(i, n, bufLen, header);
      i := i + n;
      return Ok(n);
    }

    /** `Write::write`: the same clamp and the same counter as `Read`. */
    method Write(bufLen: nat) returns (r: Result<nat, IoError>)
      requires Valid() && inner.writeReplies != []
      requires WholeBlocks(inner.writeReplies[0], RequestLen(bufLen, header.byteLen, i, header.blockAlign), header.blockAlign)
      modifies this, inner
      ensures Valid()
      ensures var len := RequestLen(bufLen, header.byteLen, old(i), header.blockAlign);
        r == Clamp(old(inner.writeReplies)[0], len)
        && inner.requests == old(inner.requests) + [WriteRequest(len)]
        && i == old(i) + (if r.Ok? then r.value else 0)
      ensures inner.writeReplies == old(inner.writeReplies)[1..] && inner.readReplies == old(inner.readReplies)
    {
      var len := bufLen;
      len := Min(len, header.byteLen - i);
      len := len - len % header.blockAlign;
      var n :- inner.Write(len);
      CounterStaysInData(i, n, bufLen, header);
      i := i + n;
      return Ok(n);
    }

    /** `flush` goes straight to the inner stream. */
    method Flush() returns (r: Result<(), IoError>)
      modifies inner
      ensures r == inner.flushReply && inner.requests == old(inner.requests) + [FlushRequest]
      ensures inner.readReplies == old(inner.readReplies) && inner.writeReplies == old(inner.writeReplies)
    {
      r := inner.Flush();
    }
  }
}
