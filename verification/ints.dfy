/** Fixed-width integers of the Rust source, as ranges of Dafny's unbounded `int`. */
module Ints {

  const U32_LIMIT: int := 0x1_0000_0000
  const U64_LIMIT: int := 0x1_0000_0000_0000_0000
  const I64_MIN: int := -0x8000_0000_0000_0000
  const I64_MAX: int := 0x7FFF_FFFF_FFFF_FFFF

  type u32 = x: int | 0 <= x < 0x1_0000_0000
  type u64 = x: int | 0 <= x < 0x1_0000_0000_0000_0000
  type i64 = x: int | -0x8000_0000_0000_0000 <= x < 0x8000_0000_0000_0000
  type byte = x: int | 0 <= x < 0x100

  /** 2 to the power k. */
  function Pow2(k: nat): (p: nat)
    ensures p >= 1
  {
    if k == 0 then 1 else 2 * Pow2(k - 1)
  }

  /** `u32::is_power_of_two`: exactly one bit set, so 0 is not a power of two. */
  predicate IsPowerOfTwo(n: nat)
  {
    n == 1 || (n >= 2 && n % 2 == 0 && IsPowerOfTwo(n / 2))
  }

  /** Every power 2^k passes the check. */
  lemma {:induction false} Pow2IsPowerOfTwo(k: nat)
    ensures IsPowerOfTwo(Pow2(k))
  {
    if k > 0 {
      Pow2IsPowerOfTwo(k - 1);
      assert Pow2(k) / 2 == Pow2(k - 1);
    }
  }

  /** Only the powers 2^k pass the check. */
  lemma {:induction false} PowerOfTwoIsPow2(n: nat)
    requires IsPowerOfTwo(n)
    ensures exists k: nat :: Pow2(k) == n
  {
    if n == 1 {
      assert Pow2(0) == n;
    } else {
      PowerOfTwoIsPow2(n / 2);
      var k: nat :| Pow2(k) == n / 2;
      assert Pow2(k + 1) == n;
    }
  }

  /** The ring sizes the configuration tests use: 0 and 1000 are rejected. */
  lemma RejectedRingSizes()
    ensures !IsPowerOfTwo(0) && !IsPowerOfTwo(1000)
  {
    assert !IsPowerOfTwo(125);
    assert !IsPowerOfTwo(250);
    assert !IsPowerOfTwo(500);
  }

  /** The ring sizes the configuration tests use: 1024 and 65536 are accepted. */
  lemma AcceptedRingSizes()
    ensures IsPowerOfTwo(1024) && IsPowerOfTwo(65536)
  {
    assert Pow2(10) == 1024 by {
      assert Pow2(5) == 32;
    }
    assert Pow2(16) == 65536 by {
      assert Pow2(8) == 256;
    }
    Pow2IsPowerOfTwo(10);
    Pow2IsPowerOfTwo(16);
  }

  /** The `u64 as i64` cast: two's-complement reinterpretation of the same 64 bits. */
  function U64AsI64(v: u64): (r: i64)
    ensures v <= I64_MAX ==> r == v
    ensures v > I64_MAX ==> r == v - U64_LIMIT
    ensures I64AsU64(r) == v
  {
    if v <= I64_MAX then v else v - U64_LIMIT
  }

  /** The inverse `i64 as u64` cast. */
  function I64AsU64(v: i64): u64
  {
    if v >= 0 then v else v + U64_LIMIT
  }

  /** The cast loses no information: distinct `u64` values stay distinct. */
  lemma U64AsI64Injective(a: u64, b: u64)
    requires U64AsI64(a) == U64AsI64(b)
    ensures a == b
  {
    assert I64AsU64(U64AsI64(a)) == a;
  }
}
