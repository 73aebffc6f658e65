// Machine words of the 8-bit AVR targets: bytes, the unsigned integer widths
// the firmware uses, little-endian packing, and the division facts the
// proofs about addresses need.

module Bytes {

  /** One byte of a register, of the bus, of flash or of EEPROM. */
  type Byte = bv8

  /** The C unsigned integer types, for counters and addresses; every update
      of them is written out modulo their width. */
  type Uint8 = x: int | 0 <= x < 0x100
  type Uint16 = x: int | 0 <= x < 0x1_0000
  type Uint32 = x: int | 0 <= x < 0x1_0000_0000

  /** A value that may be absent. */
  datatype Option<T> = None | Some(value: T)

  function Inc8(x: Uint8): (r: Uint8)
    ensures x < 0xFF ==> r == x + 1
    ensures x == 0xFF ==> r == 0
  {
    (x + 1) % 0x100
  }

  function Inc16(x: Uint16): (r: Uint16)
    ensures x < 0xFFFF ==> r == x + 1
    ensures x == 0xFFFF ==> r == 0
  {
    (x + 1) % 0x1_0000
  }

  /** Incrementing a 16-bit counter that holds x modulo 2^16 gives x + 1 modulo 2^16. */
  lemma Inc16Mod(x: nat)
    ensures Inc16(x % 0x1_0000) == (x + 1) % 0x1_0000
  {
    ModOfSum(x, 1, 0x1_0000);
  }

  /** The C test `a & m`, as a condition. */
  predicate AnyBit(a: Byte, m: Byte)
  {
    a & m != 0
  }

  /** `on ? a | m : a & ~m`: the bits of m set or cleared together. */
  function WithBits(a: Byte, m: Byte, on: bool): Byte
  {
    if on then a | m else a & !m
  }

  /** Setting or clearing the bits of m leaves every other bit of a as it was,
      and a single-bit m then tests exactly as requested. */
  lemma WithBitsEffect(a: Byte, m: Byte, on: bool, n: Byte)
    ensures n & m == 0 ==> WithBits(a, m, on) & n == a & n
    ensures n & m == n && n != 0 ==> (AnyBit(WithBits(a, m, on), n) <==> on)
  {
  }

  /** A byte as an unsigned number and back. */
  lemma ByteRoundTrip(b: Byte)
    ensures 0 <= b as int < 0x100 && (b as int) as Byte == b
  {
  }

  /** `x & 0xFF` stored into a byte. */
  function LowByte(x: nat): Byte
  {
    (x % 0x100) as Byte
  }

  /** The byte whose unsigned value is n, built by counting up from 0. */
  function ByteOf(n: nat): (b: Byte)
    requires n < 0x100
    ensures b as int == n
  {
    if n == 0 then 0 else ByteOf(n - 1) + 1
  }

  /** A number below 256 stored into a byte reads back as itself. */
  lemma NumberRoundTrip(n: int)
    requires 0 <= n < 0x100
    ensures (n as Byte) as int == n
  {
    ByteRoundTrip(ByteOf(n));
  }

  /** The high and low bytes `(x >> 8) & 0xFF` and `x & 0xFF` keep x modulo 2^16. */
  lemma HighLowBytes(x: nat)
    ensures LowByte(x / 0x100) as int * 0x100 + LowByte(x) as int == x % 0x1_0000
  {
    NumberRoundTrip((x / 0x100) % 0x100);
    NumberRoundTrip(x % 0x100);
    HighLowDigits(x);
  }

  lemma HighLowDigits(x: nat)
    ensures (x / 0x100) % 0x100 * 0x100 + x % 0x100 == x % 0x1_0000
  {
    var x1, x0 := x / 0x100, x % 0x100;
    var h := x1 % 0x100;
    assert x == 0x100 * x1 + x0;
    assert x1 == 0x100 * (x1 / 0x100) + h;
    assert x == 0x1_0000 * (x1 / 0x100) + (0x100 * h + x0);
    DivModUnique(x, 0x1_0000, x1 / 0x100, 0x100 * h + x0);
  }

  /** Reducing a summand modulo m first does not change the sum modulo m. */
  lemma ModOfSum(x: nat, y: nat, m: nat)
    requires m > 0
    ensures (x % m + y) % m == (x + y) % m
  {
    assert x == m * (x / m) + x % m;
    ModAddMultiple(x / m, x % m + y, m);
  }

  /** A 32-bit counter kept as a machine word: `+ 1` wraps modulo 2^32. */
  type Word32 = bv32

  /** Byte number i (0 = least significant) of a 32-bit word: `(x >> 8*i) & 0xFF`. */
  function ByteAt(x: Word32, i: nat): Byte
    requires i < 4
  {
    var shifted := if i == 0 then x else if i == 1 then x >> 8 else if i == 2 then x >> 16 else x >> 24;
    (shifted & 0xFF) as Byte
  }

  /** The 32-bit word stored little-endian in the bytes b0, b1, b2, b3. */
  function LittleEndian32(b0: Byte, b1: Byte, b2: Byte, b3: Byte): Word32
  {
    (b0 as Word32) | ((b1 as Word32) << 8) | ((b2 as Word32) << 16) | ((b3 as Word32) << 24)
  }

  /** Packing four bytes little-endian and taking byte i back out returns byte i. */
  lemma LittleEndianBytes(b0: Byte, b1: Byte, b2: Byte, b3: Byte)
    ensures ByteAt(LittleEndian32(b0, b1, b2, b3), 0) == b0
    ensures ByteAt(LittleEndian32(b0, b1, b2, b3), 1) == b1
    ensures ByteAt(LittleEndian32(b0, b1, b2, b3), 2) == b2
    ensures ByteAt(LittleEndian32(b0, b1, b2, b3), 3) == b3
  {
  }

  /** Splitting a 32-bit word into its bytes and packing them again gives the word. */
  lemma BytesLittleEndian(x: Word32)
    ensures LittleEndian32(ByteAt(x, 0), ByteAt(x, 1), ByteAt(x, 2), ByteAt(x, 3)) == x
  {
  }

  // Division by a divisor that is a model parameter (a page size), which the
  // solver does not reason about unaided.

  lemma MulAtLeast(p: nat, d: int)
    requires p > 0 && d >= 1
    ensures p * d >= p
  {
    if d > 1 {
      assert p * d == p * (d - 1) + p;
      MulAtLeast(p, d - 1);
    }
  }

  /** Quotient and remainder are determined by x == p * q + r with 0 <= r < p. */
  lemma DivModUnique(x: int, p: nat, q: int, r: int)
    requires p > 0 && 0 <= r < p && x == p * q + r
    ensures x / p == q && x % p == r
  {
    var q0, r0 := x / p, x % p;
    assert x == p * q0 + r0 && 0 <= r0 < p;
    if q0 > q {
      assert p * q0 == p * q + p * (q0 - q);
      MulAtLeast(p, q0 - q);
    } else if q0 < q {
      assert p * q == p * q0 + p * (q - q0);
      MulAtLeast(p, q - q0);
    }
  }

  lemma ModAddMultiple(t: nat, y: nat, p: nat)
    requires p > 0
    ensures (p * t + y) % p == y % p
  {
    DivModUnique(p * t + y, p, t + y / p, y % p);
  }
}
