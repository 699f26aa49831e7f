/**
 * Unsigned 32-bit words as the address code uses them: bitwise OR and left shift
 * on values below 2^32, and the order of a word's bytes in memory.
 */
module Bits {

  const WORD: nat := 0x1_0000_0000

  type byte = x: nat | x < 256

  function Pow2(k: nat): (p: nat)
    ensures p > 0
  {
    if k == 0 then 1 else 2 * Pow2(k - 1)
  }

  /** x | y, bit by bit. */
  function Or(x: nat, y: nat): nat
    decreases x + y
  {
    if x == 0 then y
    else if y == 0 then x
    else 2 * Or(x / 2, y / 2) + (if x % 2 == 1 || y % 2 == 1 then 1 else 0)
  }

  /** x << k in 32 bits. */
  function Shl(x: nat, k: nat): nat {
    x * Pow2(k) % WORD
  }

  lemma {:induction false} OrCommutes(x: nat, y: nat)
    ensures Or(x, y) == Or(y, x)
    decreases x + y
  {
    if x > 0 && y > 0 {
      OrCommutes(x / 2, y / 2);
    }
  }

  /** Two words without a common bit: OR is addition. */
  lemma {:induction false} OrIsSum(low: nat, high: nat, k: nat)
    requires low < Pow2(k)
    ensures Or(low, high * Pow2(k)) == low + high * Pow2(k)
    ensures Or(high * Pow2(k), low) == low + high * Pow2(k)
    decreases k
  {
    if k > 0 {
      var h := high * Pow2(k - 1);
      assert high * Pow2(k) == 2 * h;
      OrIsSum(low / 2, high, k - 1);
    }
    OrCommutes(low, high * Pow2(k));
  }

  /** OrIsSum at the three shift distances in use, and the shifts of a byte themselves. */
  lemma {:induction false} OrIsSumAt8(low: nat, high: nat)
    requires low <= 0xff
    ensures Or(low, high * 0x100) == low + high * 0x100
  {
    assert Pow2(4) == 0x10 && Pow2(8) == 0x100;
    OrIsSum(low, high, 8);
  }

  lemma {:induction false} OrIsSumAt16(low: nat, high: nat)
    requires low <= 0xffff
    ensures Or(low, high * 0x1_0000) == Or(high * 0x1_0000, low) == low + high * 0x1_0000
  {
    assert Pow2(4) == 0x10 && Pow2(8) == 0x100 && Pow2(12) == 0x1000 && Pow2(16) == 0x1_0000;
    OrIsSum(low, high, 16);
  }

  lemma {:induction false} OrIsSumAt24(low: nat, high: nat)
    requires low <= 0xff_ffff
    ensures Or(low, high * 0x100_0000) == Or(high * 0x100_0000, low) == low + high * 0x100_0000
  {
    assert Pow2(4) == 0x10 && Pow2(8) == 0x100 && Pow2(12) == 0x1000 && Pow2(16) == 0x1_0000;
    assert Pow2(20) == 0x10_0000 && Pow2(24) == 0x100_0000;
    OrIsSum(low, high, 24);
  }

  lemma {:induction false} ShiftsOfByte(a: nat)
    requires a <= 0xff
    ensures Shl(a, 8) == a * 0x100 && Shl(a, 16) == a * 0x1_0000 && Shl(a, 24) == a * 0x100_0000
  {
    hide Or;
    assert Pow2(4) == 0x10 && Pow2(8) == 0x100 && Pow2(12) == 0x1000 && Pow2(16) == 0x1_0000;
    assert Pow2(20) == 0x10_0000 && Pow2(24) == 0x100_0000;
  }

  /** val | parts[0] << 24 */
  lemma {:induction false} Pack2(a: nat, v: nat)
    requires a <= 0xff && v <= 0xff_ffff
    ensures Or(v, Shl(a, 24)) == a * 0x100_0000 + v
  {
    hide Or, Shl;
    ShiftsOfByte(a);
    OrIsSumAt24(v, a);
  }

  lemma {:induction false} PackHigh(a: nat, b: nat)
    requires a <= 0xff && b <= 0xff
    ensures Or(Shl(a, 24), Shl(b, 16)) == (a * 0x100 + b) * 0x1_0000
  {
    hide Or, Shl;
    ShiftsOfByte(a);
    ShiftsOfByte(b);
    OrIsSumAt24(b * 0x1_0000, a);
  }

  /** val | (parts[0] << 24 | parts[1] << 16) */
  lemma {:induction false} Pack3(a: nat, b: nat, v: nat)
    requires a <= 0xff && b <= 0xff && v <= 0xffff
    ensures Or(v, Or(Shl(a, 24), Shl(b, 16))) == a * 0x100_0000 + b * 0x1_0000 + v
  {
    hide Or, Shl;
    PackHigh(a, b);
    OrIsSumAt16(v, a * 0x100 + b);
  }

  lemma {:induction false} PackHigher(a: nat, b: nat, c: nat)
    requires a <= 0xff && b <= 0xff && c <= 0xff
    ensures Or(Or(Shl(a, 24), Shl(b, 16)), Shl(c, 8)) == (a * 0x1_0000 + b * 0x100 + c) * 0x100
  {
    hide Or, Shl;
    PackHigh(a, b);
    ShiftsOfByte(c);
    OrIsSumAt16(c * 0x100, a * 0x100 + b);
  }

  /** val | (parts[0] << 24 | parts[1] << 16 | parts[2] << 8) */
  lemma {:induction false} Pack4(a: nat, b: nat, c: nat, v: nat)
    requires a <= 0xff && b <= 0xff && c <= 0xff && v <= 0xff
    ensures Or(v, Or(Or(Shl(a, 24), Shl(b, 16)), Shl(c, 8)))
         == a * 0x100_0000 + b * 0x1_0000 + c * 0x100 + v
  {
    hide Or, Shl;
    PackHigher(a, b, c);
    OrIsSumAt8(v, a * 0x1_0000 + b * 0x100 + c);
  }

  datatype Endian = Little | Big

  /** The four bytes of a word, most significant first. */
  function NetworkBytes(v: nat): (b: seq<byte>)
    ensures |b| == 4
  {
    [v / 0x100_0000 % 256, v / 0x1_0000 % 256, v / 0x100 % 256, v % 256]
  }

  /** The word whose bytes, most significant first, are given. */
  function WordOf(b: seq<byte>): (v: nat)
    requires |b| == 4
    ensures v < WORD
  {
    b[0] as int * 0x100_0000 + b[1] as int * 0x1_0000 + b[2] as int * 0x100 + b[3] as int
  }

  /** What a word looks like in memory. */
  function Memory(e: Endian, v: nat): seq<byte> {
    var b := NetworkBytes(v);
    if e == Big then b else [b[3], b[2], b[1], b[0]]
  }

  /** htonl: byte swap on a little-endian machine, identity on a big-endian one. */
  function Htonl(e: Endian, v: nat): (w: nat)
    requires v < WORD
    ensures w < WORD
  {
    var b := NetworkBytes(v);
    if e == Big then v else WordOf([b[3], b[2], b[1], b[0]])
  }

  lemma {:induction false} DropByte(q: nat, r: nat)
    ensures r < 0x100 ==> (q * 0x100 + r) / 0x100 == q
  {
  }

  lemma {:induction false} DropTwoBytes(q: nat, r: nat)
    ensures r < 0x1_0000 ==> (q * 0x1_0000 + r) / 0x1_0000 == q
  {
  }

  lemma {:induction false} DropThreeBytes(q: nat, r: nat)
    ensures r < 0x100_0000 ==> (q * 0x100_0000 + r) / 0x100_0000 == q
  {
  }

  lemma {:induction false} LowByte(q: nat, r: nat)
    ensures r < 0x100 ==> (q * 0x100 + r) % 0x100 == r
  {
  }

  lemma {:induction false} BytesOfWord(b: seq<byte>)
    requires |b| == 4
    ensures NetworkBytes(WordOf(b)) == b
  {
    var b0, b1, b2, b3 := b[0] as int, b[1] as int, b[2] as int, b[3] as int;
    DropByte(b0 * 0x1_0000 + b1 * 0x100 + b2, b3);
    DropTwoBytes(b0 * 0x100 + b1, b2 * 0x100 + b3);
    DropThreeBytes(b0, b1 * 0x1_0000 + b2 * 0x100 + b3);
    LowByte(b0 * 0x1_0000 + b1 * 0x100 + b2, b3);
    LowByte(b0 * 0x100 + b1, b2);
    LowByte(b0, b1);
  }

  lemma WordOfBytes(v: nat)
    requires v < WORD
    ensures WordOf(NetworkBytes(v)) == v
  {
    assert v / 0x100 / 0x100 == v / 0x1_0000;
    assert v / 0x1_0000 / 0x100 == v / 0x100_0000;
  }

  /** Whatever the machine's byte order, a word stored through htonl lies most significant byte first. */
  lemma HtonlMemory(e: Endian, v: nat)
    requires v < WORD
    ensures Memory(e, Htonl(e, v)) == NetworkBytes(v)
  {
    if e == Little {
      var b := NetworkBytes(v);
      BytesOfWord([b[3], b[2], b[1], b[0]]);
    }
  }
}
