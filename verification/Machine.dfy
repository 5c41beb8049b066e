/**
  Machine integers of the on-chain programs. The programs are built with overflow checks, so an
  operation whose exact result does not fit its type aborts the whole instruction. `Result` is the
  outcome of an instruction or of one of its steps: `Abort` means that nothing of it is kept.
  */
module Machine {

  const U64_MAX: nat := 0xFFFF_FFFF_FFFF_FFFF
  const U128_MAX: nat := 0xFFFF_FFFF_FFFF_FFFF_FFFF_FFFF_FFFF_FFFF
  const I64_MIN: int := -0x8000_0000_0000_0000
  const I64_MAX: int := 0x7FFF_FFFF_FFFF_FFFF

  /** Total supply of the NOS token, in base units. */
  const NOS_TOTAL_SUPPLY: nat := 100_000_000 * 1_000_000

  type u64 = x: nat | x <= U64_MAX
  type u128 = x: nat | x <= U128_MAX
  type i64 = x: int | I64_MIN <= x <= I64_MAX

  datatype Result<+T> = Ok(value: T) | Abort {
    predicate IsFailure() {
      Abort?
    }

    function PropagateFailure<U>(): Result<U>
      requires Abort?
    {
      Abort
    }

    function Extract(): T
      requires Ok?
    {
      value
    }
  }

  datatype Option<+T> = None | Some(value: T)

  /** The exact value `x` stored in 64 unsigned bits. */
  function ToU64(x: int): Result<u64> {
    if 0 <= x <= U64_MAX then Ok(x) else Abort
  }

  /** The exact value `x` stored in 128 unsigned bits. */
  function ToU128(x: int): Result<u128> {
    if 0 <= x <= U128_MAX then Ok(x) else Abort
  }

  /** The exact value `x` stored in 64 signed bits. */
  function ToI64(x: int): Result<i64> {
    if I64_MIN <= x <= I64_MAX then Ok(x) else Abort
  }

  /** Unsigned division, which aborts on a zero divisor. */
  function Quotient(x: nat, y: nat): Result<nat> {
    if y == 0 then Abort else Ok(x / y)
  }

  /** A guard: `Ok` when it holds. */
  function Guard(condition: bool): Result<()> {
    if condition then Ok(()) else Abort
  }

  function Min(x: int, y: int): int {
    if x <= y then x else y
  }

  function Max(x: int, y: int): int {
    if x >= y then x else y
  }
}
