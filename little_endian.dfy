/** Fixed-width unsigned integers and the little-endian readers the walker uses, both over an
    in-memory buffer (getByte, getWord, getDoubleWord) and over the volume image at an absolute
    offset (getByteFromFile, getWordFromFile, getDoubleWordFromFile). Every file read in the
    program seeks from the start of the image first, so the image is a plain byte sequence and
    the file position carries nothing from one read to the next. */
module LittleEndian {

  const TWO16: int := 0x1_0000
  const TWO32: int := 0x1_0000_0000

  type byte = x: int | 0 <= x < 0x100
  type u16 = x: int | 0 <= x < 0x1_0000
  type u32 = x: int | 0 <= x < 0x1_0000_0000

  /** Unsigned 32-bit addition, wrapping as C's uint32_t does. */
  function Add32(a: int, b: int): (r: u32)
    ensures (a + b) % TWO32 == r
  {
    (a + b) % TWO32
  }

  /** Unsigned 32-bit multiplication, wrapping as C's uint32_t does, written as `b` wrapping
      additions of `a` so that a product of two unknowns unfolds one addition at a time;
      Mul32Value gives its closed form. */
  function Mul32(a: int, b: nat): (r: u32)
    decreases b
  {
    if b == 0 then 0 else Add32(Mul32(a, b - 1), a)
  }

  /** Mul32 is the product reduced modulo 2^32. */
  lemma {:induction false} Mul32Value(a: int, b: nat)
    ensures Mul32(a, b) == (a * b) % TWO32
    decreases b
  {
    if b > 0 {
      Mul32Value(a, b - 1);
      assert a * (b - 1) + a == a * b;
      ModAddLeft(a * (b - 1), a);
    }
  }

  /** Adding a multiple of 2^32 changes nothing modulo 2^32. */
  lemma ModPlusMultiple(a: int, j: int)
    ensures (a + j * TWO32) % TWO32 == a % TWO32
  {
  }

  /** Reducing modulo 2^32 before adding another term changes nothing modulo 2^32. */
  lemma ModAddLeft(a: int, b: int)
    ensures (a % TWO32 + b) % TWO32 == (a + b) % TWO32
  {
    ModPlusMultiple(a % TWO32 + b, a / TWO32);
  }

  // ---------------------------------------------------------------------------
  // Readers over a buffer

  /** getByte: the byte at `offset`. */
  function Byte(buffer: seq<byte>, offset: nat): (n: byte)
    requires offset < |buffer|
    ensures n == buffer[offset]
  {
    buffer[offset]
  }

  /** getWord: a uint16_t accumulator takes the low byte, then the high byte shifted left by 8
      is added. Each step stays within 16 bits (the subset type checks it), so the result is the
      little-endian value of the two bytes. */
  function Word(buffer: seq<byte>, offset: nat): (n: u16)
    requires offset + 2 <= |buffer|
    ensures n == buffer[offset] as int + 0x100 * buffer[offset + 1] as int
  {
    var n: u16 := buffer[offset];
    n + buffer[offset + 1] as int * 0x100
  }

  /** getDoubleWord: a uint32_t accumulator adds the four bytes shifted left by 0, 8, 16 and 24.
      Each partial sum stays within 32 bits, so no addition wraps and the result is the
      little-endian value of the four bytes. */
  function DoubleWord(buffer: seq<byte>, offset: nat): (n: u32)
    requires offset + 4 <= |buffer|
    ensures n == buffer[offset] as int + 0x100 * buffer[offset + 1] as int
                 + 0x1_0000 * buffer[offset + 2] as int + 0x100_0000 * buffer[offset + 3] as int
  {
    var n0: u32 := buffer[offset];
    var n1: u32 := n0 + buffer[offset + 1] as int * 0x100;
    var n2: u32 := n1 + buffer[offset + 2] as int * 0x1_0000;
    n2 + buffer[offset + 3] as int * 0x100_0000
  }

  // ---------------------------------------------------------------------------
  // Readers over the image at an absolute offset (fseek from the start, then fgetc)

  /** getByteFromFile: one fgetc after seeking to `offset`. */
  function ByteFromFile(input: seq<byte>, offset: nat): (n: byte)
    requires offset < |input|
    ensures n == Byte(input, offset)
  {
    input[offset]
  }

  /** getWordFromFile: two fgetc calls, the second shifted left by 8, into a uint16_t; reads
      the same value as getWord on a buffer holding the image. */
  function WordFromFile(input: seq<byte>, offset: nat): (n: u16)
    requires offset + 2 <= |input|
    ensures n == Word(input, offset)
  {
    var n: u16 := ByteFromFile(input, offset);
    n + ByteFromFile(input, offset + 1) as int * 0x100
  }

  /** getDoubleWordFromFile: four fgetc calls shifted left by 0, 8, 16 and 24 into a uint32_t. */
  function DoubleWordFromFile(input: seq<byte>, offset: nat): (n: u32)
    requires offset + 4 <= |input|
    ensures n == DoubleWord(input, offset)
  {
    var n0: u32 := ByteFromFile(input, offset);
    var n1: u32 := n0 + ByteFromFile(input, offset + 1) as int * 0x100;
    var n2: u32 := n1 + ByteFromFile(input, offset + 2) as int * 0x1_0000;
    n2 + ByteFromFile(input, offset + 3) as int * 0x100_0000
  }

  // ---------------------------------------------------------------------------
  // Writers: the inverses of the readers, used to state round trips

  function PutByte(s: seq<byte>, offset: nat, v: byte): (r: seq<byte>)
    requires offset < |s|
    ensures |r| == |s| && r[offset] == v
    ensures forall i :: 0 <= i < |s| && i != offset ==> r[i] == s[i]
  {
    s[offset := v]
  }

  function PutWord(s: seq<byte>, offset: nat, v: u16): (r: seq<byte>)
    requires offset + 2 <= |s|
    ensures |r| == |s|
    ensures forall i :: 0 <= i < |s| && (i < offset || offset + 2 <= i) ==> r[i] == s[i]
  {
    s[offset := v % 0x100][offset + 1 := v / 0x100]
  }

  function PutDoubleWord(s: seq<byte>, offset: nat, v: u32): (r: seq<byte>)
    requires offset + 4 <= |s|
    ensures |r| == |s|
    ensures forall i :: 0 <= i < |s| && (i < offset || offset + 4 <= i) ==> r[i] == s[i]
  {
    s[offset := v % 0x100]
     [offset + 1 := (v / 0x100) % 0x100]
     [offset + 2 := (v / 0x1_0000) % 0x100]
     [offset + 3 := v / 0x100_0000]
  }

  lemma ByteRoundTrip(s: seq<byte>, offset: nat, v: byte)
    requires offset < |s|
    ensures Byte(PutByte(s, offset, v), offset) == v
    ensures PutByte(s, offset, Byte(s, offset)) == s
  {
  }

  /** Writing a 16-bit value and reading it back gives the value; writing back what was read
      leaves the buffer unchanged. */
  lemma WordRoundTrip(s: seq<byte>, offset: nat, v: u16)
    requires offset + 2 <= |s|
    ensures Word(PutWord(s, offset, v), offset) == v
    ensures PutWord(s, offset, Word(s, offset)) == s
  {
  }

  /** Division by 256 is determined by a quotient and a remainder below 256. */
  lemma DivMod256(x: int, q: int, r: int)
    requires 0 <= r < 0x100 && x == r + 0x100 * q
    ensures r == x % 0x100 && q == x / 0x100
  {
  }

  /** The four base-256 digits of a 32-bit value, and the value the digits spell. */
  lemma {:induction false} Digits32(v: u32, d0: byte, d1: byte, d2: byte, d3: byte)
    ensures v == d0 + 0x100 * d1 + 0x1_0000 * d2 + 0x100_0000 * d3
            <==> (d0 == v % 0x100 && d1 == (v / 0x100) % 0x100
                  && d2 == (v / 0x1_0000) % 0x100 && d3 == v / 0x100_0000)
  {
    var q1 := v / 0x100;
    var q2 := q1 / 0x100;
    var q3 := q2 / 0x100;
    DivMod256(v, q1, v % 0x100);
    DivMod256(q1, q2, q1 % 0x100);
    DivMod256(q2, q3, q2 % 0x100);
    assert q2 == v / 0x1_0000;
    assert q3 == v / 0x100_0000;
    if v == d0 + 0x100 * d1 + 0x1_0000 * d2 + 0x100_0000 * d3 {
      var e2 := d2 + 0x100 * d3;
      var e1 := d1 + 0x100 * e2;
      DivMod256(v, e1, d0);
      DivMod256(e1, e2, d1);
      DivMod256(e2, d3, d2);
    }
  }

  /** The same two directions for 32-bit values. */
  lemma DoubleWordRoundTrip(s: seq<byte>, offset: nat, v: u32)
    requires offset + 4 <= |s|
    ensures DoubleWord(PutDoubleWord(s, offset, v), offset) == v
    ensures PutDoubleWord(s, offset, DoubleWord(s, offset)) == s
  {
    var t := PutDoubleWord(s, offset, v);
    Digits32(v, t[offset], t[offset + 1], t[offset + 2], t[offset + 3]);
    var w := DoubleWord(s, offset);
    var u := PutDoubleWord(s, offset, w);
    Digits32(w, s[offset], s[offset + 1], s[offset + 2], s[offset + 3]);
    assert u[offset] == s[offset] && u[offset + 1] == s[offset + 1];
    assert u[offset + 2] == s[offset + 2] && u[offset + 3] == s[offset + 3];
    assert u == s;
  }
}
