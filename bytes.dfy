/** Bytes as typed arrays hold them, and the index arithmetic that
    JavaScript's `slice` and `subarray` share. */
module Bytes {
  /** An element of a `Uint8Array`; also a field element of GF(2^8). */
  type byte = x: int | 0 <= x < 256

  /** Where a relative index of `slice` or `subarray` lands in a sequence of
      the given length: a negative index counts from the end, and the result
      is clamped to [0, length]. */
  function RelativeIndex(length: nat, index: int): (e: nat)
    ensures e <= length
    ensures 0 <= index <= length ==> e == index
    ensures index > length ==> e == length
    ensures index < 0 ==> e == if length + index < 0 then 0 else length + index
  {
    if index < 0 then (if length + index < 0 then 0 else length + index)
    else if index > length then length
    else index
  }
}
