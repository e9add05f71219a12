/** Machine words and what storing a number in one of them does. */
module Words {
  const TWO16: int := 0x1_0000
  const TWO31: int := 0x8000_0000
  const TWO32: int := 0x1_0000_0000
  const TWO64: int := 0x1_0000_0000_0000_0000

  type byte = x: int | 0 <= x < 256
  type u16 = x: int | 0 <= x < 0x1_0000
  type u32 = x: int | 0 <= x < 0x1_0000_0000
  type u64 = x: int | 0 <= x < 0x1_0000_0000_0000_0000
  type s32 = x: int | -0x8000_0000 <= x < 0x8000_0000

  /** The 32-bit int that stores x, which wraps around. */
  function Signed(x: int): (r: s32)
    ensures -TWO31 <= x < TWO31 ==> r == x
    ensures TWO31 <= x < TWO32 + TWO31 ==> r == x - TWO32
    ensures -TWO32 - TWO31 <= x < -TWO31 ==> r == x + TWO32
  {
    var d := x % TWO32;
    if d < TWO31 then d else d - TWO32
  }
}
