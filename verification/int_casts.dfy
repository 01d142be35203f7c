/**
 * The fixed-width integer conversions the editor relies on, written out
 * over unbounded integers: `static_cast` to the 16- and 32-bit types
 * (two's complement wrap-around) and Qt's `qRound`.
 */
module IntCasts {

  type u16 = x: int | 0 <= x < 0x1_0000
  type i16 = x: int | -0x8000 <= x < 0x8000
  type u32 = x: int | 0 <= x < 0x1_0000_0000
  type i32 = x: int | -0x8000_0000 <= x < 0x8000_0000

  /** `static_cast<quint16>(x)`: the unsigned 16-bit value congruent to x. */
  function ToUint16(x: int): (r: u16)
    ensures (r - x) % 0x1_0000 == 0
    ensures 0 <= x < 0x1_0000 ==> r == x
  {
    x % 0x1_0000
  }

  /** `static_cast<qint16>(x)`: the signed 16-bit value congruent to x. */
  function ToInt16(x: int): (r: i16)
    ensures (r - x) % 0x1_0000 == 0
    ensures -0x8000 <= x < 0x8000 ==> r == x
  {
    var u := x % 0x1_0000;
    if u < 0x8000 then u else u - 0x1_0000
  }

  /** `static_cast<quint32>(x)`: the unsigned 32-bit value congruent to x. */
  function ToUint32(x: int): (r: u32)
    ensures (r - x) % 0x1_0000_0000 == 0
    ensures 0 <= x < 0x1_0000_0000 ==> r == x
  {
    x % 0x1_0000_0000
  }

  /** `static_cast<qint32>(x)`: the signed 32-bit value congruent to x. */
  function ToInt32(x: int): (r: i32)
    ensures (r - x) % 0x1_0000_0000 == 0
    ensures -0x8000_0000 <= x < 0x8000_0000 ==> r == x
  {
    var u := x % 0x1_0000_0000;
    if u < 0x8000_0000 then u else u - 0x1_0000_0000
  }

  /** Reading an unsigned 32-bit value back through a signed one loses nothing. */
  lemma UnsignedSignedRoundTrip(x: u32)
    ensures ToUint32(ToInt32(x)) == x
    ensures x < 0x8000_0000 ==> ToInt32(x) == x
    ensures x >= 0x8000_0000 ==> ToInt32(x) < 0
  {
  }

  /**
   * Qt's `qRound` on a double: the nearest integer, halves rounded
   * towards positive infinity (for negative d Qt computes
   * int(d - int(d-1) + 0.5) + int(d-1), which is the same floor).
   */
  function QRound(d: real): (r: int)
    ensures r as real - 0.5 <= d < r as real + 0.5
  {
    (d + 0.5).Floor
  }
}
