/**
 Definitions shared by the other modules: optional values and results, the
 fixed-width unsigned arithmetic of the repository, and suffixes of sequences.
 */
module Basics {

  datatype Option<+T> = None | Some(value: T)

  datatype Result<+T, +E> = Ok(value: T) | Err(error: E)

  const U64_MAX: nat := 0xFFFF_FFFF_FFFF_FFFF
  const I64_MIN: int := -0x8000_0000_0000_0000
  const I64_MAX: int := 0x7FFF_FFFF_FFFF_FFFF

  function Min(a: int, b: int): int { if a <= b then a else b }

  function Max(a: int, b: int): int { if a >= b then a else b }

  // `usize` is taken to be 64 bits wide, so `Cap(a + b)` is the
  // saturating sum and `Cap(a * b)` the saturating product, of `usize` and `u64` alike.
  function Cap(n: nat): nat { if n <= U64_MAX then n else U64_MAX }

  function SatSub(a: nat, b: nat): nat { if a >= b then a - b else 0 }

  // The last `n` elements of `s`, or all of them when there are fewer.
  function Last<T>(s: seq<T>, n: nat): (r: seq<T>)
    ensures |r| == Min(|s|, n)
    ensures forall i, j :: 0 <= i < |r| && 0 <= j < |s| && |r| - i == |s| - j ==> r[i] == s[j]
  {
    if |s| <= n then s else s[|s| - n..]
  }
}
