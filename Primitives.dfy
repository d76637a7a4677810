/** Machine-level values shared by the program: Rust's `u64` with its checked
    operations, bytes, Solana public keys, and the Option/Result wrappers that
    stand for Rust's `Option` and `Result`. */
module Primitives {

  const U64_MAX: nat := 0xFFFF_FFFF_FFFF_FFFF

  /** Rust's `u64`: integers are unbounded in Dafny, so the width is a subset type. */
  type U64 = x: nat | x <= U64_MAX

  type byte = x: nat | x < 256

  const PUBKEY_LEN: nat := 32

  /** A Solana public key, `[u8; 32]`. */
  type Pubkey = k: seq<byte> | |k| == PUBKEY_LEN witness seq(32, i => 0)

  datatype Option<+T> = None | Some(value: T)

  datatype Result<+T, +E> = Success(value: T) | Failure(error: E)

  /** `u64::checked_add`: `None` exactly when the sum leaves the u64 range. */
  function CheckedAdd(a: U64, b: U64): (r: Option<U64>)
  {
    if a + b <= U64_MAX then Some(a + b) else None
  }

  /** `u64::checked_sub`: `None` exactly when the difference would be negative. */
  function CheckedSub(a: U64, b: U64): (r: Option<U64>)
  {
    if b <= a then Some(a - b) else None
  }

  /** `u64::checked_mul`: `None` exactly when the product leaves the u64 range. */
  function CheckedMul(a: U64, b: U64): (r: Option<U64>)
  {
    if a * b <= U64_MAX then Some(a * b) else None
  }

  /** `u64::checked_div`: `None` exactly for a zero divisor; otherwise the floor quotient. */
  function CheckedDiv(a: U64, b: U64): (r: Option<U64>)
    ensures r.Some? <==> b != 0
    ensures r.Some? ==> r.value * b <= a < (r.value + 1) * b
  {
    if b == 0 then None else Some(a / b)
  }
}
