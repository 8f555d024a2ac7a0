/** The machine integers the kernel computes with, as bounded mathematical integers.
    Wrap-around and sign conversion are written out where the code performs them. */
module Words {

  const TWO_64: int := 0x1_0000_0000_0000_0000
  const TWO_63: int := 0x8000_0000_0000_0000
  const U64_MAX: u64 := 0xFFFF_FFFF_FFFF_FFFF

  type u8 = n: int | 0 <= n < 0x100
  type u32 = n: int | 0 <= n < 0x1_0000_0000
  type u64 = n: int | 0 <= n < 0x1_0000_0000_0000_0000
  type i64 = n: int | -0x8000_0000_0000_0000 <= n < 0x8000_0000_0000_0000

  function Min(a: nat, b: nat): (m: nat)
    ensures m <= a && m <= b && (m == a || m == b)
  {
    if a <= b then a else b
  }

  /** `wrapping_add` and `wrapping_sub` on u64. */
  function WrappingAdd(a: u64, b: u64): u64 { (a + b) % TWO_64 }
  function WrappingSub(a: u64, b: u64): u64 { (a - b + TWO_64) % TWO_64 }

  /** `as u64` on an i64 and `as i64` on a u64: two's complement reinterpretation. */
  function AsU64(i: i64): u64 { if i < 0 then i + TWO_64 else i }
  function AsI64(u: u64): i64 { if u < TWO_63 then u else u - TWO_64 }

  /** Rewinding the program counter and undoing it is the identity, in both orders. */
  lemma RewindAndRestore(a: u64, b: u64)
    ensures WrappingAdd(WrappingSub(a, b), b) == a
    ensures WrappingSub(WrappingAdd(a, b), b) == a
  {
  }

  /** Reading a word as signed and back loses nothing; the words from 2^63 on are the negative numbers,
      and all ones is -1. */
  lemma SignRoundTrip(u: u64)
    ensures AsU64(AsI64(u)) == u
    ensures AsI64(u) < 0 <==> u >= 0x8000_0000_0000_0000
    ensures u == 0xFFFF_FFFF_FFFF_FFFF <==> AsI64(u) == -1
  {
  }
}
