/** Types shared by every module: bytes, fixed-width integers, options and results. */
module Prelude {
  type byte = x: int | 0 <= x < 256
  type Bytes = seq<byte>

  const U16_LIMIT: int := 0x1_0000
  const U32_LIMIT: int := 0x1_0000_0000
  const U64_LIMIT: int := 0x1_0000_0000_0000_0000
  const I64_LIMIT: int := 0x8000_0000_0000_0000

  type u16 = x: int | 0 <= x < U16_LIMIT
  type u32 = x: int | 0 <= x < U32_LIMIT
  type u64 = x: int | 0 <= x < U64_LIMIT
  type i64 = x: int | -I64_LIMIT <= x < I64_LIMIT

  datatype Option<+T> = None | Some(value: T)

  datatype Result<+T, +E> = Ok(value: T) | Err(error: E)

  function Zeros(n: nat): (z: Bytes)
    ensures |z| == n && forall i :: 0 <= i < n ==> z[i] == 0
  {
    if n == 0 then [] else [0] + Zeros(n - 1)
  }

  /** The unsigned increment of the source, which wraps. */
  function Next64(x: u64): u64 {
    if x == U64_LIMIT - 1 then 0 else x + 1
  }

  /** `checkedAdd` and `checkedMul` on 64-bit unsigned values (include/cf/checked.hpp). */
  function CheckedAdd(a: u64, b: u64): Option<u64> {
    if a > U64_LIMIT - 1 - b then None else Some(a + b)
  }

  function CheckedMul(a: u64, b: u64): Option<u64> {
    if a != 0 && b > (U64_LIMIT - 1) / a then None
    else if a * b < U64_LIMIT && a * b >= 0 then Some(a * b) else None
  }
}
