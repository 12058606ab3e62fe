/**
 * The exact duration units of the stream layer: byte counts (`NBytes`) and block counts
 * (`NBlocks`), each an opaque `u64`, with their arithmetic and the conversion between
 * them through a stream's `blockAlign`.
 *
 * Arithmetic follows a debug build: an overflowing `+` or `*`, a `-` below zero and a
 * division by zero all panic, so each is excluded by a precondition.
 */
module Durations {
  import opened Ints
  import opened StreamSpecs

  /** Unit tags: `Count<BytesUnit>` is `NBytes`, `Count<BlocksUnit>` is `NBlocks`. */
  datatype BytesUnit = BytesUnit
  datatype BlocksUnit = BlocksUnit

  /**
   * A `u64` count tagged with its unit. `impl_ops!` expands to the same operators for
   * both units; here they are written once for any unit, and two counts of different
   * units do not mix.
   */
  datatype Count<Unit> = Count(n: u64)

  type NBytes = Count<BytesUnit>
  type NBlocks = Count<BlocksUnit>

  /** The derived ordering compares the inner counts. */
  predicate Le<U>(a: Count<U>, b: Count<U>) {
    a.n <= b.n
  }

  /** The derived order is a total order on the counts of one unit. */
  lemma LeIsTotalOrder<U>(a: Count<U>, b: Count<U>, c: Count<U>)
    ensures Le(a, a)
    ensures Le(a, b) && Le(b, a) ==> a == b
    ensures Le(a, b) && Le(b, c) ==> Le(a, c)
    ensures Le(a, b) || Le(b, a)
  {
  }

  // ---------------------------------------------------------------------------
  // impl_ops!
  // ---------------------------------------------------------------------------

  /** `+`: the sum is at least each operand, and subtracting either operand gives the other. */
  function Plus<U>(a: Count<U>, b: Count<U>): (r: Count<U>)
    requires a.n + b.n < U64_LIMIT
    ensures Le(a, r) && Le(b, r)
    ensures Minus(r, b) == a && Minus(r, a) == b
  {
    Count(a.n + b.n)
  }

  /** `-`: the difference is what must be added to `b` to reach `a`. */
  function Minus<U>(a: Count<U>, b: Count<U>): (r: Count<U>)
    requires b.n <= a.n
    ensures Le(r, a) && r.n + b.n == a.n
  {
    Count(a.n - b.n)
  }

  /** `* u64`: the plain product; a nonzero factor never shrinks the count, and dividing by it undoes it. */
  function Times<U>(a: Count<U>, k: u64): (r: Count<U>)
    requires a.n * k < U64_LIMIT
    ensures r.n == a.n * k
    ensures k > 0 ==> Le(a, r) && DivBy(r, k) == a
  {
    if k > 0 then
      MultipleOf(a.n, k);
      MulMonotone(1, k, a.n);
      Count(a.n * k)
    else Count(a.n * k)
  }

  /** Same-unit division: how many whole `b` fit into `a`. */
  function Ratio<U>(a: Count<U>, b: Count<U>): (q: u64)
    requires b.n > 0
    ensures q * b.n <= a.n < q * b.n + b.n
  {
    a.n / b.n
  }

  /** Division by a scalar keeps the unit and rounds down. */
  function DivBy<U>(a: Count<U>, k: u64): (r: Count<U>)
    requires k > 0
    ensures r.n * k <= a.n < r.n * k + k
  {
    Count(a.n / k)
  }

  lemma MinusThenPlus<U>(a: Count<U>, b: Count<U>)
    requires b.n <= a.n
    ensures Plus(Minus(a, b), b) == a
  {
  }

  /** A scaled count holds the original count whole `k`-sized parts: same-unit division gives it back. */
  lemma TimesThenRatio<U>(a: Count<U>, k: u64)
    requires k > 0 && a.n * k < U64_LIMIT
    ensures Ratio(Times(a, k), a.(n := k)) == a.n
  {
    MultipleOf(a.n, k);
  }

  // ---------------------------------------------------------------------------
  // FromStreamDuration between NBlocks and NBytes
  // ---------------------------------------------------------------------------

  /** `NBytes::from_stream_duration(NBlocks)`: whole blocks of `blockAlign` bytes. */
  function BytesFromBlocks<C>(d: NBlocks, spec: StreamSpec<C>): (r: NBytes)
    requires d.n * spec.blockAlign < U64_LIMIT
    ensures spec.blockAlign > 0 ==> r.n % spec.blockAlign == 0 && r.n / spec.blockAlign == d.n
  {
    if spec.blockAlign > 0 then MultipleOf(d.n, spec.blockAlign); Count(d.n * spec.blockAlign)
    else Count(d.n * spec.blockAlign)
  }

  /**
   * `NBlocks::from_stream_duration(NBytes)`. The byte count must lie on a block
   * boundary; the source debug-asserts this instead of rounding.
   */
  function BlocksFromBytes<C>(d: NBytes, spec: StreamSpec<C>): (r: NBlocks)
    requires spec.blockAlign > 0
    requires d.n % spec.blockAlign == 0
    ensures r.n * spec.blockAlign == d.n
  {
    Count(d.n / spec.blockAlign)
  }

  /**
   * `into_stream_duration` is `from_stream_duration` with the arguments swapped: a block
   * count becomes whole blocks of bytes.
   */
  function BlocksIntoBytes<C>(d: NBlocks, spec: StreamSpec<C>): (r: NBytes)
    requires d.n * spec.blockAlign < U64_LIMIT
    ensures r == BytesFromBlocks(d, spec)
    ensures spec.blockAlign > 0 ==> r.n % spec.blockAlign == 0 && r.n / spec.blockAlign == d.n
  {
    BytesFromBlocks(d, spec)
  }

  /** The other direction: a byte count on a block boundary becomes the number of its blocks. */
  function BytesIntoBlocks<C>(d: NBytes, spec: StreamSpec<C>): (r: NBlocks)
    requires spec.blockAlign > 0 && d.n % spec.blockAlign == 0
    ensures r == BlocksFromBytes(d, spec)
    ensures r.n * spec.blockAlign == d.n
  {
    BlocksFromBytes(d, spec)
  }

  /** The two `into_stream_duration` conversions undo one another. */
  lemma IntoRoundTrips<C>(blocks: NBlocks, bytes: NBytes, spec: StreamSpec<C>)
    requires spec.blockAlign > 0
    requires blocks.n * spec.blockAlign < U64_LIMIT
    requires bytes.n % spec.blockAlign == 0
    ensures BytesIntoBlocks(BlocksIntoBytes(blocks, spec), spec) == blocks
    ensures BlocksIntoBytes(BytesIntoBlocks(bytes, spec), spec) == bytes
  {
    var k := spec.blockAlign;
    MultipleOf(blocks.n, k);
    var q := bytes.n / k;
    assert q * k == bytes.n;
  }

  // ---------------------------------------------------------------------------
  // Properties of the exact conversion
  // ---------------------------------------------------------------------------

  lemma BlocksRoundTrip<C>(d: NBlocks, spec: StreamSpec<C>)
    requires spec.blockAlign > 0 && d.n * spec.blockAlign < U64_LIMIT
    ensures BlocksFromBytes(BytesFromBlocks(d, spec), spec) == d
  {
    var bytes := BytesFromBlocks(d, spec);
    MultipleOf(d.n, spec.blockAlign);
  }

  lemma BytesRoundTrip<C>(d: NBytes, spec: StreamSpec<C>)
    requires spec.blockAlign > 0 && d.n % spec.blockAlign == 0
    ensures BytesFromBlocks(BlocksFromBytes(d, spec), spec) == d
  {
  }

  /** More blocks are never fewer bytes. */
  lemma BytesFromBlocksMonotone<C>(a: NBlocks, b: NBlocks, spec: StreamSpec<C>)
    requires Le(a, b) && b.n * spec.blockAlign < U64_LIMIT
    ensures a.n * spec.blockAlign < U64_LIMIT
    ensures Le(BytesFromBlocks(a, spec), BytesFromBlocks(b, spec))
  {
    MulMonotone(a.n, b.n, spec.blockAlign);
  }

  /** More bytes (on block boundaries) are never fewer blocks. */
  lemma BlocksFromBytesMonotone<C>(a: NBytes, b: NBytes, spec: StreamSpec<C>)
    requires spec.blockAlign > 0 && a.n % spec.blockAlign == 0 && b.n % spec.blockAlign == 0
    requires Le(a, b)
    ensures Le(BlocksFromBytes(a, spec), BlocksFromBytes(b, spec))
  {
    var x, y := BlocksFromBytes(a, spec), BlocksFromBytes(b, spec);
    MulCancel(x.n, y.n, spec.blockAlign);
  }

  /** Converting a sum of block counts is the sum of the converted counts. */
  lemma BytesFromBlocksAdditive<C>(a: NBlocks, b: NBlocks, spec: StreamSpec<C>)
    requires a.n + b.n < U64_LIMIT && (a.n + b.n) * spec.blockAlign < U64_LIMIT
    ensures a.n * spec.blockAlign < U64_LIMIT && b.n * spec.blockAlign < U64_LIMIT
    ensures BytesFromBlocks(a, spec).n + BytesFromBlocks(b, spec).n < U64_LIMIT
    ensures BytesFromBlocks(Plus(a, b), spec) == Plus(BytesFromBlocks(a, spec), BytesFromBlocks(b, spec))
  {
    MulMonotone(a.n, a.n + b.n, spec.blockAlign);
    MulMonotone(b.n, a.n + b.n, spec.blockAlign);
    MulDistributes(a.n, b.n, spec.blockAlign);
  }

  /** With a block alignment of 4: ten blocks are forty bytes and back; 41 bytes are not on a boundary. */
  lemma FourByteBlocksExample<C>(spec: StreamSpec<C>)
    requires spec.blockAlign == 4
    ensures BytesFromBlocks(Count(10), spec) == Count(40)
    ensures BlocksFromBytes(BytesFromBlocks(Count(10), spec), spec) == Count(10)
    ensures 41 % spec.blockAlign != 0
  {
  }

  lemma MulCancel(x: nat, y: nat, k: nat)
    requires k > 0 && x * k <= y * k
    ensures x <= y
  {
    assert (x - y) * k == x * k - y * k;
  }

  lemma MulDistributes(x: nat, y: nat, k: nat)
    ensures (x + y) * k == x * k + y * k
  {
  }

  lemma MulMonotone(x: nat, y: nat, k: nat)
    requires x <= y
    ensures x * k <= y * k
  {
    assert y * k == x * k + (y - x) * k;
  }
}
