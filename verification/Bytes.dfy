/** Bytes as numbers, and little-endian integers made of them. */
module Bytes {
  type Byte = b: int | 0 <= b < 256
  type UInt16 = n: int | 0 <= n < 0x1_0000
  type UInt32 = n: int | 0 <= n < 0x1_0000_0000
  type UInt64 = n: int | 0 <= n < 0x1_0000_0000_0000_0000
  type Int8 = n: int | -0x80 <= n < 0x80
  type Int16 = n: int | -0x8000 <= n < 0x8000
  type Int32 = n: int | -0x8000_0000 <= n < 0x8000_0000
  type Int64 = n: int | -0x8000_0000_0000_0000 <= n < 0x8000_0000_0000_0000

  /** The cast to `uint8_t`, which keeps the low eight bits. */
  function ToByte(n: int): Byte {
    n % 256
  }

  /** The cast from `uint8_t` to `int8_t`. */
  function ToInt8(b: Byte): Int8 {
    if b < 128 then b else b - 256
  }

  function ToInt16(n: UInt16): Int16 {
    if n < 0x8000 then n else n - 0x1_0000
  }

  function ToInt32(n: UInt32): Int32 {
    if n < 0x8000_0000 then n else n - 0x1_0000_0000
  }

  /** The `k` low bytes of a number, lowest first; negative numbers in two's complement. */
  function LittleEndian(n: int, k: nat): (r: seq<Byte>)
    ensures |r| == k
    decreases k
  {
    if k == 0 then [] else [n % 256] + LittleEndian(n / 256, k - 1)
  }

  function FromLittleEndian2(a: Byte, b: Byte): UInt16 {
    a + 256 * b
  }

  function FromLittleEndian4(a: Byte, b: Byte, c: Byte, d: Byte): UInt32 {
    a + 256 * (b + 256 * (c + 256 * d))
  }

  lemma {:induction false} LittleEndian4Bytes(n: int)
    ensures LittleEndian(n, 4) == [n % 256, n / 256 % 256, n / 256 / 256 % 256, n / 256 / 256 / 256 % 256]
  {
    var a := n / 256;
    var b := a / 256;
    var c := b / 256;
    assert LittleEndian(c, 1) == [c % 256] + LittleEndian(c / 256, 0);
    assert LittleEndian(b, 2) == [b % 256] + LittleEndian(c, 1);
    assert LittleEndian(a, 3) == [a % 256] + LittleEndian(b, 2);
  }

  /** Four little-endian bytes read back as the number they were made from. */
  lemma {:induction false} LittleEndian4RoundTrips(n: int)
    ensures var s := LittleEndian(n, 4);
      FromLittleEndian4(s[0], s[1], s[2], s[3]) == n % 0x1_0000_0000
  {
    LittleEndian4Bytes(n);
    hide LittleEndian;
    var a := n / 256;
    var b := a / 256;
    var c := b / 256;
    var q := c / 256;
    var low := FromLittleEndian4(n % 256, a % 256, b % 256, c % 256);
    assert n == 256 * a + n % 256 && a == 256 * b + a % 256 && b == 256 * c + b % 256 && c == 256 * q + c % 256;
    LowPart(n, low, q);
  }

  lemma {:induction false} LowPart(n: int, low: UInt32, q: int)
    requires n == 0x1_0000_0000 * q + low
    ensures n % 0x1_0000_0000 == low
  {
  }
}
