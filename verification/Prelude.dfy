/** Vocabulary shared by every module: optional and failing results, bytes, and
    the truncating conversions of Go's fixed-width integers. */
module Prelude {

  datatype Option<+T> = None | Some(value: T) {
    predicate IsFailure() { None? }

    function PropagateFailure<U>(): Option<U>
      requires None?
    {
      None
    }

    function Extract(): T
      requires Some?
    {
      value
    }
  }

  datatype Result<+T, +E> = Ok(value: T) | Err(error: E)

  type Byte = x: int | 0 <= x < 256
  type Bytes = seq<Byte>

  const TWO_32: int := 0x1_0000_0000
  const TWO_64: int := 0x1_0000_0000_0000_0000

  type U64 = x: nat | x < TWO_64

  /** The largest value a BIGINT column can hold; a larger uint64 argument makes
      the statement fail. */
  const MAX_INT64: int := 0x7FFF_FFFF_FFFF_FFFF

  function Min(x: int, y: int): int { if x <= y then x else y }

  /** Go's uint64 arithmetic, which wraps around. */
  function Uint64(x: int): (r: nat)
    ensures r < TWO_64
    ensures 0 <= x < TWO_64 ==> r == x
  {
    if 0 <= x < TWO_64 then x else x % TWO_64
  }

  /** Addition of two uint64 values. */
  function AddUint64(x: U64, y: U64): U64 {
    if x + y < TWO_64 then x + y else x + y - TWO_64
  }

  /** Go's int32(x) for an unsigned x: the low 32 bits read as a signed number. */
  function Int32(x: nat): (r: int)
    ensures -0x8000_0000 <= r < 0x8000_0000
    ensures x < 0x8000_0000 ==> r == x
  {
    var low := x % TWO_32;
    if low < 0x8000_0000 then low else low - TWO_32
  }

  /** Go's uint8(x) for an unsigned x. */
  function Uint8(x: nat): Byte { x % 256 }
}
