/** The fixed-width arithmetic of the program: wrap-around and the conversions between signed and unsigned. */
module Machine {

  const TWO_32: int := 0x1_0000_0000
  const TWO_64: int := 0x1_0000_0000_0000_0000

  type U32 = x: int | 0 <= x < TWO_32
  type U64 = x: int | 0 <= x < TWO_64
  type I32 = x: int | -0x8000_0000 <= x < 0x8000_0000

  function AsU32(x: int): U32 {
    x % TWO_32
  }

  function AsU64(x: int): (r: U64)
    ensures 0 <= x < TWO_64 ==> r == x
  {
    x % TWO_64
  }

  /** The low 32 bits of `x` read as an `int`. */
  function ToInt(x: int): (r: int)
    ensures -0x8000_0000 <= r < 0x8000_0000
    ensures -0x8000_0000 <= x < 0x8000_0000 ==> r == x
  {
    var low := x % TWO_32;
    if low < 0x8000_0000 then low else low - TWO_32
  }

  /** The low 64 bits of `x` read as a `long long int`. */
  function ToLong(x: int): (r: int)
    ensures -0x8000_0000_0000_0000 <= r < 0x8000_0000_0000_0000
    ensures -0x8000_0000_0000_0000 <= x < 0x8000_0000_0000_0000 ==> r == x
  {
    var low := x % TWO_64;
    if low < 0x8000_0000_0000_0000 then low else low - TWO_64
  }

  /** `a -= b` for a signed `a` and an unsigned 64-bit `b`: the difference is taken unsigned. */
  function SubLong(a: int, b: U64): (r: int)
    ensures -0x8000_0000_0000_0000 <= a - b < 0x8000_0000_0000_0000 ==> r == a - b
  {
    ToLong(a - b)
  }

  /** `bw_rem -= reads; if (bw_rem < 0) bw_rem = 0;` for a signed `bw_rem` and unsigned reads. */
  function Spend(bw: int, rd: U64): int {
    var left := SubLong(bw, rd);
    if left < 0 then 0 else left
  }

  lemma SpendIs(bw: int, rd: U64)
    ensures Spend(bw, rd) == if SubLong(bw, rd) < 0 then 0 else SubLong(bw, rd)
  {
  }
}
