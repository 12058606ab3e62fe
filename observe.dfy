/**
 * `Observer`: a transparent tap on a signal. Every read, write, seek and flush goes to
 * the inner signal and its result comes back unchanged; after a successful read, write
 * or seek the installed callback sees what passed through. The callback's side effects
 * are modelled as a ghost log of the events it was handed.
 *
 * The inner signal is a scripted object: queues of what its next reads, writes, seeks
 * and flushes do. Reads copy samples into the caller's array; writes take a slice.
 */
module Observing {
  import opened Outcomes
  import opened Ints
  import opened PhonicErrors

  /** `SignalEvent`: what an Event callback is handed. */
  datatype SignalEvent<S> =
    | ReadEvent(samples: seq<S>)
    | WriteEvent(samples: seq<S>)
    | SeekEvent(offset: i64)

  /** Which of the four callback kinds an observer holds. */
  datatype Callback = OnEvent | OnRead | OnWrite | OnSeek

  /**
   * Whether a callback of kind `c` runs for event `e`. A Read, Write or Seek callback
   * is handed the slice or offset alone; the log records it as the matching event.
   */
  predicate Fires<S>(c: Callback, e: SignalEvent<S>) {
    match c
    case OnEvent => true
    case OnRead => e.ReadEvent?
    case OnWrite => e.WriteEvent?
    case OnSeek => e.SeekEvent?
  }

  /** What the log gains from event `e`: the event, if the callback runs for it. */
  function Observed<S>(c: Callback, e: SignalEvent<S>): (log: seq<SignalEvent<S>>)
    ensures |log| <= 1
    ensures log != [] <==> Fires(c, e)
    ensures forall x :: x in log ==> x == e
  {
    if Fires(c, e) then [e] else []
  }

  /** Every logged event is one the callback runs for. */
  predicate LogFits<S>(c: Callback, log: seq<SignalEvent<S>>) {
    forall i :: 0 <= i < |log| ==> Fires(c, log[i])
  }

  /** Appending what `Observed` yields keeps a log fitting its callback. */
  lemma ObservedFits<S>(c: Callback, log: seq<SignalEvent<S>>, e: SignalEvent<S>)
    requires LogFits(c, log)
    ensures LogFits(c, log + Observed(c, e))
  {
    var ext := log + Observed(c, e);
    forall i | 0 <= i < |ext|
      ensures Fires(c, ext[i])
    {
      if i >= |log| {
        assert ext[i] in Observed(c, e);
      }
    }
  }

  /** A Read callback never sees a write or a seek: its log holds only read slices. */
  lemma ReadCallbackLogsOnlyReads<S>(log: seq<SignalEvent<S>>)
    requires LogFits(OnRead, log)
    ensures forall i :: 0 <= i < |log| ==> log[i].ReadEvent?
  {
  }

  /**
   * What the inner signal's read delivers into a buffer of `bufLen` samples: as much of
   * the head chunk as fits (the rest stays queued), or the error at the head. An empty
   * queue is the end of the signal.
   */
  datatype ReadStep<S> = ReadStep(queue: seq<Result<seq<S>, PhonicError>>, delivered: Result<seq<S>, PhonicError>)

  function StepRead<S>(queue: seq<Result<seq<S>, PhonicError>>, bufLen: nat): (r: ReadStep<S>)
    ensures r.delivered.Ok? ==> |r.delivered.value| <= bufLen
    ensures queue == [] ==> r == ReadStep([], Ok([]))
    ensures queue != [] && queue[0].Ok? ==>
      r.delivered.Ok? && r.delivered.value <= queue[0].value
      && (|r.delivered.value| == bufLen || r.delivered.value == queue[0].value)
    ensures queue != [] && queue[0].Err? ==> r == ReadStep(queue[1..], queue[0])
  {
    if queue == [] then ReadStep([], Ok([]))
    else match queue[0]
      case Err(e) => ReadStep(queue[1..], Err(e))
      case Ok(chunk) =>
        var n := Min(|chunk|, bufLen);
        var rest := if n == |chunk| then queue[1..] else [Ok(chunk[n..])] + queue[1..];
        ReadStep(rest, Ok(chunk[..n]))
  }

  /** What a read returns: the number of samples delivered, or the error. */
  function CountOf<S>(d: Result<seq<S>, PhonicError>): Result<nat, PhonicError> {
    match d
    case Ok(s) => Ok(|s|)
    case Err(e) => Err(e)
  }

  class Signal<S> {
    var readQueue: seq<Result<seq<S>, PhonicError>>
    /** How many samples each write accepts (clamped to the slice), or its error. */
    var writeQueue: seq<Result<nat, PhonicError>>
    var seekQueue: seq<Result<(), PhonicError>>
    var flushQueue: seq<Result<(), PhonicError>>
    /** What the signal has accepted from writes, and the offsets it has moved by. */
    var written: seq<S>
    var offsets: seq<i64>

    constructor (readQueue: seq<Result<seq<S>, PhonicError>>, writeQueue: seq<Result<nat, PhonicError>>,
                 seekQueue: seq<Result<(), PhonicError>>, flushQueue: seq<Result<(), PhonicError>>)
      ensures this.readQueue == readQueue && this.writeQueue == writeQueue
      ensures this.seekQueue == seekQueue && this.flushQueue == flushQueue
      ensures written == [] && offsets == []
    {
      this.readQueue, this.writeQueue := readQueue, writeQueue;
      this.seekQueue, this.flushQueue := seekQueue, flushQueue;
      written, offsets := [], [];
    }

    /** Copies the delivered samples into the front of `buf`; the rest of `buf` is untouched. */
    method Read(buf: array<S>) returns (r: Result<nat, PhonicError>)
      modifies this, buf
      ensures var step := StepRead(old(readQueue), buf.Length);
        readQueue == step.queue && r == CountOf(step.delivered)
        && (step.delivered.Ok? ==> buf[..|step.delivered.value|] == step.delivered.value)
        && (step.delivered.Ok? ==> buf[|step.delivered.value|..] == old(buf[|step.delivered.value|..]))
        && (step.delivered.Err? ==> buf[..] == old(buf[..]))
      ensures writeQueue == old(writeQueue) && seekQueue == old(seekQueue) && flushQueue == old(flushQueue)
      ensures written == old(written) && offsets == old(offsets)
    {
      var step := StepRead(readQueue, buf.Length);
      readQueue := step.queue;
      match step.delivered {
        case Err(e) =>
          r := Err(e);
        case Ok(samples) =>
          var i := 0;
          while i < |samples|
            invariant 0 <= i <= |samples| <= buf.Length
            invariant buf[..i] == samples[..i]
            invariant buf[i..] == old(buf[i..])
            modifies buf
          {
            buf[i] := samples[i];
            i := i + 1;
          }
          r := Ok(|samples|);
      }
    }

    method Write(buf: seq<S>) returns (r: Result<nat, PhonicError>)
      requires writeQueue != []
      modifies this
      ensures writeQueue == old(writeQueue)[1..]
      ensures r == match old(writeQueue)[0] case Ok(k) => Ok(Min(k, |buf|)) case Err(e) => Err(e)
      ensures written == old(written) + (if r.Ok? then buf[..r.value] else [])
      ensures readQueue == old(readQueue) && seekQueue == old(seekQueue) && flushQueue == old(flushQueue)
      ensures offsets == old(offsets)
    {
      match writeQueue[0] {
        case Ok(k) =>
          var n := Min(k, |buf|);
          written := written + buf[..n];
          r := Ok(n);
        case Err(e) =>
          r := Err(e);
      }
      writeQueue := writeQueue[1..];
    }

    method Seek(offset: i64) returns (r: Result<(), PhonicError>)
      requires seekQueue != []
      modifies this
      ensures r == old(seekQueue)[0] && seekQueue == old(seekQueue)[1..]
      ensures offsets == old(offsets) + (if r.Ok? then [offset] else [])
      ensures readQueue == old(readQueue) && writeQueue == old(writeQueue) && flushQueue == old(flushQueue)
      ensures written == old(written)
    {
      r := seekQueue[0];
      seekQueue := seekQueue[1..];
      if r.Ok? {
        offsets := offsets + [offset];
      }
    }

    method Flush() returns (r: Result<(), PhonicError>)
      requires flushQueue != []
      modifies this
      ensures r == old(flushQueue)[0] && flushQueue == old(flushQueue)[1..]
      ensures readQueue == old(readQueue) && writeQueue == old(writeQueue) && seekQueue == old(seekQueue)
      ensures written == old(written) && offsets == old(offsets)
    {
      r := flushQueue[0];
      flushQueue := flushQueue[1..];
    }
  }

  class Observer<S> {
    const inner: Signal<S>
    const callback: Callback
    /** The events the callback has been handed, oldest first. */
    ghost var events: seq<SignalEvent<S>>

    ghost predicate Valid()
      reads this
    {
      LogFits(callback, events)
    }

    /** `new`: an Event callback, handed every read, write and seek. */
    constructor New(inner: Signal<S>)
      ensures this.inner == inner && callback == OnEvent && events == [] && Valid()
    {
      this.inner := inner;
      callback := OnEvent;
      events := [];
    }

    constructor OnRead(inner: Signal<S>)
      ensures this.inner == inner && callback == Callback.OnRead && events == [] && Valid()
    {
      this.inner := inner;
      callback := Callback.OnRead;
      events := [];
    }

    constructor OnWrite(inner: Signal<S>)
      ensures this.inner == inner && callback == Callback.OnWrite && events == [] && Valid()
    {
      this.inner := inner;
      callback := Callback.OnWrite;
      events := [];
    }

    constructor OnSeek(inner: Signal<S>)
      ensures this.inner == inner && callback == Callback.OnSeek && events == [] && Valid()
    {
      this.inner := inner;
      callback := Callback.OnSeek;
      events := [];
    }

    /** `read`: the inner read's result; on success the callback sees `buf[..n]`. */
    method Read(buf: array<S>) returns (r: Result<nat, PhonicError>)
      requires Valid()
      modifies this, inner, buf
      ensures Valid()
      ensures var step := StepRead(old(inner.readQueue), buf.Length);
        inner.readQueue == step.queue && r == CountOf(step.delivered)
        && (step.delivered.Ok? ==> buf[..|step.delivered.value|] == step.delivered.value)
        && (step.delivered.Ok? ==> buf[|step.delivered.value|..] == old(buf[|step.delivered.value|..]))
        && (step.delivered.Err? ==> buf[..] == old(buf[..]))
      ensures inner.writeQueue == old(inner.writeQueue) && inner.seekQueue == old(inner.seekQueue)
      ensures inner.flushQueue == old(inner.flushQueue)
      ensures inner.written == old(inner.written) && inner.offsets == old(inner.offsets)
      ensures r.Err? ==> events == old(events)
      ensures r.Ok? ==> r.value <= buf.Length && events == old(events) + Observed(callback, ReadEvent(buf[..r.value]))
    {
      var n :- inner.Read(buf);
      ObservedFits(callback, events, ReadEvent(buf[..n]));
      events := events + Observed(callback, ReadEvent(buf[..n]));
      return Ok(n);
    }

    /** `write`: the inner write's result; on success the callback sees `buf[..n]`. */
    method Write(buf: seq<S>) returns (r: Result<nat, PhonicError>)
      requires Valid() && inner.writeQueue != []
      modifies this, inner
      ensures Valid()
      ensures inner.writeQueue == old(inner.writeQueue)[1..]
      ensures r == match old(inner.writeQueue)[0] case Ok(k) => Ok(Min(k, |buf|)) case Err(e) => Err(e)
      ensures inner.written == old(inner.written) + (if r.Ok? then buf[..r.value] else [])
      ensures inner.readQueue == old(inner.readQueue) && inner.seekQueue == old(inner.seekQueue)
      ensures inner.flushQueue == old(inner.flushQueue) && inner.offsets == old(inner.offsets)
      ensures r.Err? ==> events == old(events)
      ensures r.Ok? ==> events == old(events) + Observed(callback, WriteEvent(buf[..r.value]))
    {
      var n :- inner.Write(buf);
      ObservedFits(callback, events, WriteEvent(buf[..n]));
      events := events + Observed(callback, WriteEvent(buf[..n]));
      return Ok(n);
    }

    /** `flush`: the inner flush's result; no callback runs. */
    method Flush() returns (r: Result<(), PhonicError>)
      requires Valid() && inner.flushQueue != []
      modifies inner
      ensures Valid()
      ensures r == old(inner.flushQueue)[0] && inner.flushQueue == old(inner.flushQueue)[1..]
      ensures inner.readQueue == old(inner.readQueue) && inner.writeQueue == old(inner.writeQueue)
      ensures inner.seekQueue == old(inner.seekQueue)
      ensures inner.written == old(inner.written) && inner.offsets == old(inner.offsets)
      ensures events == old(events)
    {
      r := inner.Flush();
    }

    /** `seek`: the offset goes to the inner seek; on success the callback sees the same offset. */
    method Seek(offset: i64) returns (r: Result<(), PhonicError>)
      requires Valid() && inner.seekQueue != []
      modifies this, inner
      ensures Valid()
      ensures r == old(inner.seekQueue)[0] && inner.seekQueue == old(inner.seekQueue)[1..]
      ensures inner.offsets == old(inner.offsets) + (if r.Ok? then [offset] else [])
      ensures inner.readQueue == old(inner.readQueue) && inner.writeQueue == old(inner.writeQueue)
      ensures inner.flushQueue == old(inner.flushQueue) && inner.written == old(inner.written)
      ensures r.Err? ==> events == old(events)
      ensures r.Ok? ==> events == old(events) + Observed(callback, SeekEvent(offset))
    {
      var _ :- inner.Seek(offset);
      ObservedFits(callback, events, SeekEvent(offset));
      events := events + Observed(callback, SeekEvent(offset));
      return Ok(());
    }
  }
}
