/** Machine-integer ranges and result types shared by every component. */
module Common {

  const TWO_32: int := 0x1_0000_0000
  const TWO_64: int := 0x1_0000_0000_0000_0000
  const TWO_96: int := 0x1_0000_0000_0000_0000_0000_0000
  const TWO_128: int := 0x1_0000_0000_0000_0000_0000_0000_0000_0000
  const TWO_160: int := 0x1_0000_0000_0000_0000_0000_0000_0000_0000_0000_0000
  const TWO_192: int := 0x1_0000_0000_0000_0000_0000_0000_0000_0000_0000_0000_0000_0000
  const TWO_224: int := 0x1_0000_0000_0000_0000_0000_0000_0000_0000_0000_0000_0000_0000_0000_0000
  const TWO_256: int := 0x1_0000_0000_0000_0000_0000_0000_0000_0000_0000_0000_0000_0000_0000_0000_0000_0000

  /** `u32`, `u64`, `u128` and the 256-bit word of the chain. */
  type U32 = n: int | 0 <= n < TWO_32
  type U64 = n: int | 0 <= n < TWO_64
  type Amount = n: int | 0 <= n < TWO_128
  type U256 = n: int | 0 <= n < TWO_256

  const U32_MAX: U32 := TWO_32 - 1
  const U64_MAX: U64 := TWO_64 - 1
  const AMOUNT_MAX: Amount := TWO_128 - 1

  /** Addresses in canonical (lower-case) spelling, so that the case-insensitive comparisons of the
      engine are plain equality. */
  type Address = string

  datatype Option<+T> = None | Some(value: T) {
    predicate IsFailure() { None? }

    function PropagateFailure<U>(): Option<U>
      requires None?
    {
      None
    }

    function Extract(): T
      requires Some?
    {
      value
    }

    function GetOr(default: T): T {
      if Some? then value else default
    }
  }

  datatype Result<+T, +E> = Ok(value: T) | Err(error: E) {
    predicate IsFailure() { Err? }

    function PropagateFailure<U>(): Result<U, E>
      requires Err?
    {
      Err(error)
    }

    function Extract(): T
      requires Ok?
    {
      value
    }
  }

  datatype BlockContext = Pending | Block(number: U64)

  /** `u128::saturating_add`. */
  function SaturatingAdd(a: Amount, b: Amount): Amount {
    if a + b < TWO_128 then a + b else AMOUNT_MAX
  }

  /** `u128::saturating_sub`. */
  function SaturatingSub(a: Amount, b: Amount): Amount {
    if b <= a then a - b else 0
  }

  /** `u128::saturating_mul`. */
  function SaturatingMul(a: Amount, b: Amount): Amount {
    var product := a * b;
    if 0 <= product < TWO_128 then product else AMOUNT_MAX
  }
}
