/** Option and Result, the shapes every fallible operation of the model returns. */
module Outcomes {

  datatype Option<+T> = None | Some(value: T) {

    /** `unwrap_or`: the held value, or `default` when there is none. */
    function GetOr(default: T): T {
      if Some? then value else default
    }

    /** `ok_or`: the held value as a success, or `error` when there is none. */
    function OkOr<E>(error: E): Result<T, E> {
      if Some? then Ok(value) else Err(error)
    }
  }

  datatype Result<+T, +E> = Ok(value: T) | Err(error: E) {

    predicate IsFailure() {
      Err?
    }

    function PropagateFailure<U>(): Result<U, E>
      requires Err?
    {
      Err(error)
    }

    function Extract(): T
      requires Ok?
    {
      value
    }
  }

  /** The slot after Rust's `get_or_insert(v)`: kept when present, `theirs` otherwise. */
  function FillFrom<T>(mine: Option<T>, theirs: Option<T>): Option<T> {
    if mine.Some? then mine else theirs
  }

  /** Both sides hold a value and the values differ. */
  predicate Conflict<T(==)>(mine: Option<T>, theirs: Option<T>) {
    mine.Some? && theirs.Some? && mine.value != theirs.value
  }
}

/** Fixed-width unsigned integers of the source, as ranges of `int`. */
module Ints {

  const U16_LIMIT: int := 0x1_0000
  const U32_LIMIT: int := 0x1_0000_0000
  const U64_LIMIT: int := 0x1_0000_0000_0000_0000

  type u16 = x: int | 0 <= x < U16_LIMIT
  type u32 = x: int | 0 <= x < U32_LIMIT
  type u64 = x: int | 0 <= x < U64_LIMIT
  type i64 = x: int | -0x8000_0000_0000_0000 <= x < 0x8000_0000_0000_0000

  /** `usize` on the 64-bit targets the crates are built for. */
  type usize = u64

  function Min(a: int, b: int): int {
    if a <= b then a else b
  }

  function Max(a: int, b: int): int {
    if a <= b then b else a
  }

  /**
   * `x - x % align`: the largest multiple of `align` that does not exceed `x`.
   */
  function AlignDown(x: nat, align: nat): (r: nat)
    requires align > 0
    ensures r <= x && r % align == 0
    ensures x < r + align
  {
    MultipleOf(x / align, align);
    x - x % align
  }

  /** A product `q * align` leaves no remainder and divides back to `q`. */
  lemma MultipleOf(q: nat, align: nat)
    requires align > 0
    ensures (q * align) % align == 0 && (q * align) / align == q
  {
    DivModUnique(q * align, align, q, 0);
  }

  /** Euclidean division has exactly one quotient and remainder. */
  lemma DivModUnique(n: int, align: int, q: int, r: int)
    requires align > 0 && 0 <= r < align
    requires n == q * align + r
    ensures n / align == q && n % align == r
  {
    var d, m := n / align, n % align;
    assert n == d * align + m;
    var k := q - d;
    assert k * align == m - r;
    assert k >= 1 ==> k * align >= align;
    assert k <= -1 ==> k * align <= -align;
  }
}

/** The error kinds of the `phonic_*` crates that the modelled core raises or passes on. */
module PhonicErrors {

  datatype PhonicError =
    | ParamMismatch
    | MissingData
    | Unsupported
      /** An error of an inner resource or codec conversion, passed on unchanged. */
    | Inner(code: nat)
}
