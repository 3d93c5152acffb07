/**
 * Go's fixed-width unsigned arithmetic, written out on unbounded integers:
 * a uint64 is a `nat` below 2^64, `++` and `--` wrap around, and `int64(u)`
 * reinterprets the 64 bits as a two's-complement value.
 */
module GoInts {

  const Uint64Modulus: int := 0x1_0000_0000_0000_0000
  const Int64Bound: int := 0x8000_0000_0000_0000

  /** `x + 1` on a uint64: the successor modulo 2^64. */
  function Inc64(x: nat): (r: nat)
    requires x < Uint64Modulus
    ensures r < Uint64Modulus
    ensures x + 1 < Uint64Modulus ==> r == x + 1
    ensures x + 1 == Uint64Modulus ==> r == 0
  {
    (x + 1) % Uint64Modulus
  }

  /** `x - 1` on a uint64: the predecessor modulo 2^64. */
  function Dec64(x: nat): (r: nat)
    requires x < Uint64Modulus
    ensures r < Uint64Modulus
    ensures x > 0 ==> r == x - 1
    ensures x == 0 ==> r == Uint64Modulus - 1
  {
    (x + Uint64Modulus - 1) % Uint64Modulus
  }

  /** Stepping forward and back on a uint64 are inverse to each other, also across the wrap. */
  lemma IncDecInverse(x: nat)
    requires x < Uint64Modulus
    ensures Dec64(Inc64(x)) == x
    ensures Inc64(Dec64(x)) == x
  {
  }

  /** `int64(u)` for a uint64 `u`: the int64 with the same 64 bits. */
  function ToInt64(u: nat): (r: int)
    requires u < Uint64Modulus
    ensures -Int64Bound <= r < Int64Bound
    ensures (u - r) % Uint64Modulus == 0
    ensures u < Int64Bound ==> r == u
  {
    if u < Int64Bound then u else u - Uint64Modulus
  }
}
