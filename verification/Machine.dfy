/** Fixed-width integers of the source, written out over unbounded `int`. */
module Machine {

  const TWO31: int := 0x8000_0000
  const TWO32: int := 0x1_0000_0000
  const TWO63: int := 0x8000_0000_0000_0000
  const TWO64: int := 0x1_0000_0000_0000_0000

  type Byte = x: int | 0 <= x < 256

  /** A Go string: an immutable sequence of bytes. */
  type Str = seq<Byte>

  predicate IsInt32(x: int) { -TWO31 <= x < TWO31 }
  predicate IsInt64(x: int) { -TWO63 <= x < TWO63 }
  predicate IsUint64(x: int) { 0 <= x < TWO64 }

  /** The int64 result of adding two int64 values whose exact sum is `x`. */
  function Wrap64(x: int): (r: int) {
    if x >= TWO63 then x - TWO64 else if x < -TWO63 then x + TWO64 else x
  }

  /** Conversion uint64 -> int64 (the same 64 bits read as signed). */
  function AsInt64(x: int): (r: int) {
    if x >= TWO63 then x - TWO64 else x
  }

  /** Conversion int32 -> uint64 (sign extension). */
  function AsUint64(x: int): (r: int) {
    if x < 0 then x + TWO64 else x
  }

  /** The low 32 bits of `x`, read as a signed number. */
  function AsInt32(x: int): (r: int) {
    var low := x % TWO32;
    if low >= TWO31 then low - TWO32 else low
  }

  /** A conversion keeps the bits: the result is in range and equal modulo the word. */
  lemma SameBits(x: int)
    ensures -2 * TWO63 <= x < 2 * TWO63 ==> IsInt64(Wrap64(x)) && (Wrap64(x) - x) % TWO64 == 0
    ensures IsUint64(x) ==> IsInt64(AsInt64(x)) && (AsInt64(x) - x) % TWO64 == 0
    ensures IsInt32(x) ==> IsUint64(AsUint64(x)) && (AsUint64(x) - x) % TWO64 == 0
    ensures IsInt32(AsInt32(x)) && (AsInt32(x) - x) % TWO32 == 0
  {
    var low := x % TWO32;
    assert x == x / TWO32 * TWO32 + low;
  }

  /** The byte of an ASCII character. */
  function AsciiByte(c: char): (r: Byte) {
    c as int % 128
  }

  /** The bytes of an ASCII text. */
  function Ascii(text: string): (r: Str) {
    seq(|text|, i requires 0 <= i < |text| => AsciiByte(text[i]))
  }

  datatype Option<+T> = None | Some(value: T)
}
