/**
 * `StreamSelector`: one stream of a multi-stream format, seen as a stream of its own.
 * Reads poll the format and drop every packet that belongs to another stream; writes,
 * seeks, `pos` and `len` name the selector's stream to the format; `flush` flushes the
 * whole format.
 *
 * The format is a scripted object: the packets its reads deliver (stream index and
 * byte count, or an error), fixed answers to writes, seeks and flushes, and a log of
 * the calls forwarded to it. Buffer contents are not modelled, only their lengths.
 */
module StreamSelection {
  import opened Outcomes
  import opened Ints
  import opened PhonicErrors
  import opened StreamSpecs

  /** What one `read` of the format returns: `(stream index, bytes read)`, or an error. */
  type Packet = Result<(nat, nat), PhonicError>

  /** A call a selector passed on to its format. */
  datatype Forwarded =
    | WriteCall(stream: nat, bufLen: nat)
    | SeekCall(stream: nat, offset: i64)
    | FlushCall

  class Format<C> {
    const streams: seq<StreamSpec<C>>
    /** The packets the format's next reads deliver, in order. */
    var packets: seq<Packet>
    /** Per stream: `stream_pos` and `stream_len`. */
    var positions: seq<u64>
    var lengths: seq<u64>
    const writeReply: (nat, nat) -> Result<nat, PhonicError>
    const seekReply: (nat, i64) -> Result<(), PhonicError>
    const flushReply: Result<(), PhonicError>
    ghost var calls: seq<Forwarded>

    constructor (streams: seq<StreamSpec<C>>, packets: seq<Packet>, positions: seq<u64>, lengths: seq<u64>,
                 writeReply: (nat, nat) -> Result<nat, PhonicError>, seekReply: (nat, i64) -> Result<(), PhonicError>,
                 flushReply: Result<(), PhonicError>)
      ensures this.streams == streams && this.packets == packets
      ensures this.positions == positions && this.lengths == lengths
      ensures this.writeReply == writeReply && this.seekReply == seekReply && this.flushReply == flushReply
      ensures calls == []
    {
      this.streams, this.packets := streams, packets;
      this.positions, this.lengths := positions, lengths;
      this.writeReply, this.seekReply, this.flushReply := writeReply, seekReply, flushReply;
      calls := [];
    }

    /** `FormatReader::read`: delivers the next packet. */
    method Read() returns (p: Packet)
      requires packets != []
      modifies this
      ensures p == old(packets)[0] && packets == old(packets)[1..]
      ensures calls == old(calls)
    {
      p := packets[0];
      packets := packets[1..];
    }

    method Write(stream: nat, bufLen: nat) returns (r: Result<nat, PhonicError>)
      modifies this
      ensures r == writeReply(stream, bufLen)
      ensures calls == old(calls) + [WriteCall(stream, bufLen)] && packets == old(packets)
    {
      r := writeReply(stream, bufLen);
      calls := calls + [WriteCall(stream, bufLen)];
    }

    method Seek(stream: nat, offset: i64) returns (r: Result<(), PhonicError>)
      modifies this
      ensures r == seekReply(stream, offset)
      ensures calls == old(calls) + [SeekCall(stream, offset)] && packets == old(packets)
    {
      r := seekReply(stream, offset);
      calls := calls + [SeekCall(stream, offset)];
    }

    method Flush() returns (r: Result<(), PhonicError>)
      modifies this
      ensures r == flushReply
      ensures calls == old(calls) + [FlushCall] && packets == old(packets)
    {
      r := flushReply;
      calls := calls + [FlushCall];
    }
  }

  // ---------------------------------------------------------------------------
  // The read filter as functions
  // ---------------------------------------------------------------------------

  /** A packet that ends a selector's read: one of its own, or an error. */
  predicate Stops(p: Packet, stream: nat) {
    p.Err? || p.value.0 == stream
  }

  /**
   * The packets hold something that ends a read for `stream`. Without it the read loop
   * polls forever; the selector's read requires it.
   */
  predicate Reaches(ps: seq<Packet>, stream: nat) {
    exists k :: 0 <= k < |ps| && Stops(ps[k], stream)
  }

  /**
   * The index of the packet a read for `stream` returns: every packet before it belongs
   * to another stream and is discarded.
   */
  function SelectRead(ps: seq<Packet>, stream: nat): (k: nat)
    requires Reaches(ps, stream)
    ensures k < |ps| && Stops(ps[k], stream)
    ensures forall j :: 0 <= j < k ==> ps[j].Ok? && ps[j].value.0 != stream
  {
    if Stops(ps[0], stream) then 0
    else
      assert Reaches(ps[1..], stream) by {
        var k :| 0 <= k < |ps| && Stops(ps[k], stream);
        assert Stops(ps[1..][k - 1], stream);
      }
      SelectRead(ps[1..], stream) + 1
  }

  /** What a read returns for the packet that ended it. */
  function ReadResult(p: Packet): Result<nat, PhonicError> {
    match p
    case Ok(x) => Ok(x.1)
    case Err(e) => Err(e)
  }

  /** The byte counts of the packets of `stream`, in order, up to the first error. */
  function Own(ps: seq<Packet>, stream: nat): seq<nat> {
    if ps == [] then []
    else match ps[0]
      case Err(_) => []
      case Ok(x) => (if x.0 == stream then [x.1] else []) + Own(ps[1..], stream)
  }

  /**
   * A selector's read yields the first of its own packets and leaves the rest of them,
   * in order, for later reads; a read that stops on an error means no own packet was left
   * before it.
   */
  lemma {:induction false} SelectReadTakesFirstOwn(ps: seq<Packet>, stream: nat)
    requires Reaches(ps, stream)
    ensures var k := SelectRead(ps, stream);
      (ps[k].Ok? ==> Own(ps, stream) == [ps[k].value.1] + Own(ps[k + 1..], stream))
      && (ps[k].Err? ==> Own(ps, stream) == [])
  {
    var k := SelectRead(ps, stream);
    if k > 0 {
      assert SelectRead(ps[1..], stream) == k - 1;
      SelectReadTakesFirstOwn(ps[1..], stream);
      assert ps[1..][k - 1 + 1..] == ps[k + 1..];
    }
  }

  /** Two interleaved streams: the selector for stream 0 gets 20, then 40; stream 1's packets are dropped. */
  lemma TwoStreamExample()
    ensures var ps: seq<Packet> := [Ok((1, 10)), Ok((0, 20)), Ok((1, 30)), Ok((0, 40))];
      Stops(ps[1], 0) && SelectRead(ps, 0) == 1 && ReadResult(ps[1]) == Ok(20)
      && Stops(ps[2..][1], 0) && SelectRead(ps[2..], 0) == 1 && ReadResult(ps[2..][1]) == Ok(40)
  {
  }

  // ---------------------------------------------------------------------------
  // StreamSelector
  // ---------------------------------------------------------------------------

  class StreamSelector<C> {
    const inner: Format<C>
    const spec: StreamSpec<C>
    const stream: nat

    /** `new` indexes the format's stream table, which panics when `stream` is out of range. */
    constructor (inner: Format<C>, stream: nat)
      requires stream < |inner.streams|
      ensures this.inner == inner && this.stream == stream && spec == inner.streams[stream]
    {
      this.inner := inner;
      this.spec := inner.streams[stream];
      this.stream := stream;
    }

    /** `stream_spec`: the spec captured at construction, whatever the format does since. */
    function StreamSpecOf(): StreamSpec<C>
    {
      spec
    }

    /** `pos` is the format's position for this stream. */
    function Pos(): u64
      reads inner
      requires stream < |inner.positions|
    {
      inner.positions[stream]
    }

    /** `len` is the format's length for this stream. */
    function Len(): u64
      reads inner
      requires stream < |inner.lengths|
    {
      inner.lengths[stream]
    }

    /** `read`: polls the format until a packet of this stream, or an error, comes. */
    method Read() returns (r: Result<nat, PhonicError>)
      requires Reaches(inner.packets, stream)
      modifies inner
      ensures var k := SelectRead(old(inner.packets), stream);
        r == ReadResult(old(inner.packets)[k]) && inner.packets == old(inner.packets)[k + 1..]
      ensures inner.calls == old(inner.calls)
    {
      ghost var k: nat := 0;
      while true
        invariant k <= SelectRead(old(inner.packets), stream)
        invariant inner.packets == old(inner.packets)[k..]
        invariant inner.calls == old(inner.calls)
        decreases |inner.packets|
      {
        var p := inner.Read();
        match p {
          case Ok(x) =>
            if x.0 == stream {
              return Ok(x.1);
            }
          case Err(e) =>
            return Err(e);
        }
        k := k + 1;
      }
    }

    /** `write`: forwarded with this stream's index; the format's answer comes back unchanged. */
    method Write(bufLen: nat) returns (r: Result<nat, PhonicError>)
      modifies inner
      ensures r == inner.writeReply(stream, bufLen)
      ensures inner.calls == old(inner.calls) + [WriteCall(stream, bufLen)] && inner.packets == old(inner.packets)
    {
      r := inner.Write(stream, bufLen);
    }

    /** `flush`: the whole format is flushed; no stream is named. */
    method Flush() returns (r: Result<(), PhonicError>)
      modifies inner
      ensures r == inner.flushReply
      ensures inner.calls == old(inner.calls) + [FlushCall] && inner.packets == old(inner.packets)
    {
      r := inner.Flush();
    }

    /** `seek`: forwarded with this stream's index and the caller's offset. */
    method Seek(offset: i64) returns (r: Result<(), PhonicError>)
      modifies inner
      ensures r == inner.seekReply(stream, offset)
      ensures inner.calls == old(inner.calls) + [SeekCall(stream, offset)] && inner.packets == old(inner.packets)
    {
      r := inner.Seek(stream, offset);
    }
  }
}
