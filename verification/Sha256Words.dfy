/**
  The word functions of deps/include/picosha2.h. `word_t` is `unsigned long`: 32 bits wide on wasm32,
  64 on LP64 hosts, and any width in between is covered. Sums are taken modulo the width of the type
  and masked to 32 bits only where the source masks them; the functions on bits are evaluated at 64
  bits and cut to the width.
*/
module Sha256Words {
  import Std = Sha256Standard

  type Width = n: nat | 32 <= n <= 64 witness 32

  /** 2 to the power of the width. */
  function Modulus(width: Width): (m: nat)
    ensures m >= 0x1_0000_0000 && m % 0x1_0000_0000 == 0
  {
    if width == 32 then 0x1_0000_0000 else 2 * Modulus(width - 1)
  }

  /** As many ones as the width. */
  function WidthMask(width: Width): (m: bv64)
    ensures m & 0xffff_ffff == 0xffff_ffff
  {
    if width == 32 then 0xffff_ffff else (WidthMask(width - 1) << 1) | 1
  }

  lemma {:induction false} ModulusGrows(width: Width)
    requires width < 64
    ensures Modulus(width) <= 0x8000_0000_0000_0000
    decreases 64 - width
  {
    if width == 63 {
      assert Modulus(36) == 0x10_0000_0000;
      assert Modulus(40) == 0x100_0000_0000;
      assert Modulus(44) == 0x1000_0000_0000;
      assert Modulus(48) == 0x1_0000_0000_0000;
      assert Modulus(52) == 0x10_0000_0000_0000;
      assert Modulus(56) == 0x100_0000_0000_0000;
      assert Modulus(60) == 0x1000_0000_0000_0000;
    } else {
      ModulusGrows(width + 1);
    }
  }

  lemma DoubleOne(m: bv64)
    requires m as int < 0x8000_0000_0000_0000
    ensures ((m << 1) | 1) as int == 2 * (m as int) + 1
  {
    TopClear(m);
    DoubleOneRaw(m);
  }

  lemma TopClear(m: bv64)
    requires m as int < 0x8000_0000_0000_0000
    ensures m < 0x8000_0000_0000_0000
  {
  }

  lemma DoubleOneRaw(m: bv64)
    requires m < 0x8000_0000_0000_0000
    ensures ((m << 1) | 1) as int == 2 * (m as int) + 1
  {
  }

  /** The mask and the modulus are of the same width. */
  lemma {:induction false} MaskBelowModulus(width: Width)
    ensures WidthMask(width) as int == Modulus(width) - 1
  {
    if width > 32 {
      MaskBelowModulus(width - 1);
      ModulusGrows(width - 1);
      DoubleOne(WidthMask(width - 1));
    }
  }

  /** Addition of two `word_t`s. */
  function Add(x: nat, y: nat, width: Width): nat {
    (x + y) % Modulus(width)
  }

  lemma AddFits(x: nat, y: nat, width: Width)
    requires x + y < Modulus(width)
    ensures Add(x, y, width) == x + y
  {
    hide Modulus;
    SmallMod(x + y, Modulus(width));
  }

  lemma SmallMod(x: nat, m: nat)
    requires x < m
    ensures x % m == x
  {
  }

  function Mask32(x: nat): Std.word {
    x % 0x1_0000_0000
  }

  function Ch(x: bv64, y: bv64, z: bv64, width: Width): bv64 {
    (x & y) ^ ((!x & WidthMask(width)) & z)
  }

  function Maj(x: bv64, y: bv64, z: bv64): bv64 {
    (x & y) ^ (x & z) ^ (y & z)
  }

  function RotR(x: bv64, n: bv6, width: Width): bv64
    requires n < 32
  {
    ((x >> n) | ((x << (32 - n)) & WidthMask(width))) & 0xffff_ffff
  }

  function BSig0(x: bv64, width: Width): bv64 {
    RotR(x, 2, width) ^ RotR(x, 13, width) ^ RotR(x, 22, width)
  }

  function BSig1(x: bv64, width: Width): bv64 {
    RotR(x, 6, width) ^ RotR(x, 11, width) ^ RotR(x, 25, width)
  }

  function SSig0(x: bv64, width: Width): bv64 {
    RotR(x, 7, width) ^ RotR(x, 18, width) ^ (x >> 3)
  }

  function SSig1(x: bv64, width: Width): bv64 {
    RotR(x, 17, width) ^ RotR(x, 19, width) ^ (x >> 10)
  }

  // ---------- on words below 2^32 each agrees with FIPS 180-4 ----------

  lemma RotRRaw(x: bv32, n: bv6, m: bv64)
    requires n < 32 && m & 0xffff_ffff == 0xffff_ffff
    ensures (((x as bv64 >> n) | ((x as bv64 << (32 - n)) & m)) & 0xffff_ffff) == ((x >> n) | (x << (32 - n))) as bv64
  {
  }

  lemma RotRAgrees(x: bv32, n: bv6, width: Width)
    requires n < 32
    ensures RotR(x as bv64, n, width) == Std.RotR(x, n) as bv64
  {
    RotRRaw(x, n, WidthMask(width));
  }

  lemma ChAgrees(x: bv32, y: bv32, z: bv32, width: Width)
    ensures Ch(x as bv64, y as bv64, z as bv64, width) == Std.Ch(x, y, z) as bv64
  {
  }

  lemma MajAgrees(x: bv32, y: bv32, z: bv32)
    ensures Maj(x as bv64, y as bv64, z as bv64) == Std.Maj(x, y, z) as bv64
  {
  }

  lemma BSig0Raw(x: bv32, width: Width, p: bv32, q: bv32, r: bv32)
    requires p == Std.RotR(x, 2) && q == Std.RotR(x, 13) && r == Std.RotR(x, 22)
    requires RotR(x as bv64, 2, width) == p as bv64
    requires RotR(x as bv64, 13, width) == q as bv64
    requires RotR(x as bv64, 22, width) == r as bv64
    ensures BSig0(x as bv64, width) == Std.BigSigma0(x) as bv64
  {
    hide RotR, Std.RotR;
  }

  lemma BSig0Agrees(x: bv32, width: Width)
    ensures BSig0(x as bv64, width) == Std.BigSigma0(x) as bv64
  {
    hide RotR, Std.RotR, BSig0, Std.BigSigma0;
    RotRAgrees(x, 2, width);
    RotRAgrees(x, 13, width);
    RotRAgrees(x, 22, width);
    BSig0Raw(x, width, Std.RotR(x, 2), Std.RotR(x, 13), Std.RotR(x, 22));
  }

  lemma BSig1Raw(x: bv32, width: Width, p: bv32, q: bv32, r: bv32)
    requires p == Std.RotR(x, 6) && q == Std.RotR(x, 11) && r == Std.RotR(x, 25)
    requires RotR(x as bv64, 6, width) == p as bv64
    requires RotR(x as bv64, 11, width) == q as bv64
    requires RotR(x as bv64, 25, width) == r as bv64
    ensures BSig1(x as bv64, width) == Std.BigSigma1(x) as bv64
  {
    hide RotR, Std.RotR;
  }

  lemma BSig1Agrees(x: bv32, width: Width)
    ensures BSig1(x as bv64, width) == Std.BigSigma1(x) as bv64
  {
    hide RotR, Std.RotR, BSig1, Std.BigSigma1;
    RotRAgrees(x, 6, width);
    RotRAgrees(x, 11, width);
    RotRAgrees(x, 25, width);
    BSig1Raw(x, width, Std.RotR(x, 6), Std.RotR(x, 11), Std.RotR(x, 25));
  }

  lemma SSig0Raw(x: bv32, width: Width, p: bv32, q: bv32)
    requires p == Std.RotR(x, 7) && q == Std.RotR(x, 18)
    requires RotR(x as bv64, 7, width) == p as bv64
    requires RotR(x as bv64, 18, width) == q as bv64
    ensures SSig0(x as bv64, width) == Std.SmallSigma0(x) as bv64
  {
    hide RotR, Std.RotR;
  }

  lemma SSig0Agrees(x: bv32, width: Width)
    ensures SSig0(x as bv64, width) == Std.SmallSigma0(x) as bv64
  {
    hide RotR, Std.RotR, SSig0, Std.SmallSigma0;
    RotRAgrees(x, 7, width);
    RotRAgrees(x, 18, width);
    SSig0Raw(x, width, Std.RotR(x, 7), Std.RotR(x, 18));
  }

  lemma SSig1Raw(x: bv32, width: Width, p: bv32, q: bv32)
    requires p == Std.RotR(x, 17) && q == Std.RotR(x, 19)
    requires RotR(x as bv64, 17, width) == p as bv64
    requires RotR(x as bv64, 19, width) == q as bv64
    ensures SSig1(x as bv64, width) == Std.SmallSigma1(x) as bv64
  {
    hide RotR, Std.RotR;
  }

  lemma SSig1Agrees(x: bv32, width: Width)
    ensures SSig1(x as bv64, width) == Std.SmallSigma1(x) as bv64
  {
    hide RotR, Std.RotR, SSig1, Std.SmallSigma1;
    RotRAgrees(x, 17, width);
    RotRAgrees(x, 19, width);
    SSig1Raw(x, width, Std.RotR(x, 17), Std.RotR(x, 19));
  }

  lemma ModMod(x: nat, m: nat)
    requires m > 0 && m % 0x1_0000_0000 == 0
    ensures (x % m) % 0x1_0000_0000 == x % 0x1_0000_0000
  {
    var k, q := m / 0x1_0000_0000, x / m;
    assert m == 0x1_0000_0000 * k;
    assert q * m == 0x1_0000_0000 * (q * k);
    assert x == 0x1_0000_0000 * (q * k) + x % m;
  }

  /** Masking a sum of unmasked words gives the 32-bit sum: an add never disturbs the low 32 bits. */
  lemma AddLow(x: nat, y: nat, width: Width)
    ensures Mask32(Add(x, y, width)) == Std.Add(Mask32(x), Mask32(y))
  {
    hide Modulus;
    ModMod(x + y, Modulus(width));
    ModSum(x, y);
  }

  lemma ModSum(x: nat, y: nat)
    ensures (x + y) % 0x1_0000_0000 == (x % 0x1_0000_0000 + y % 0x1_0000_0000) % 0x1_0000_0000
  {
  }

  // ---------- the same functions as the block function uses them: its words stay below 2^32 ----------

  function Narrow(x: bv64, ghost same: bv32): (r: bv32)
    requires x == same as bv64
    ensures r == same
  {
    x as bv32
  }

  function ChBits(x: bv32, y: bv32, z: bv32, width: Width): (r: bv32)
    ensures r == Std.Ch(x, y, z)
  {
    ChAgrees(x, y, z, width);
    Narrow(Ch(x as bv64, y as bv64, z as bv64, width), Std.Ch(x, y, z))
  }

  function MajBits(x: bv32, y: bv32, z: bv32): (r: bv32)
    ensures r == Std.Maj(x, y, z)
  {
    MajAgrees(x, y, z);
    Narrow(Maj(x as bv64, y as bv64, z as bv64), Std.Maj(x, y, z))
  }

  function BSig0Bits(x: bv32, width: Width): (r: bv32)
    ensures r == Std.BigSigma0(x)
  {
    BSig0Agrees(x, width);
    Narrow(BSig0(x as bv64, width), Std.BigSigma0(x))
  }

  function BSig1Bits(x: bv32, width: Width): (r: bv32)
    ensures r == Std.BigSigma1(x)
  {
    BSig1Agrees(x, width);
    Narrow(BSig1(x as bv64, width), Std.BigSigma1(x))
  }

  function SSig0Bits(x: bv32, width: Width): (r: bv32)
    ensures r == Std.SmallSigma0(x)
  {
    SSig0Agrees(x, width);
    Narrow(SSig0(x as bv64, width), Std.SmallSigma0(x))
  }

  function SSig1Bits(x: bv32, width: Width): (r: bv32)
    ensures r == Std.SmallSigma1(x)
  {
    SSig1Agrees(x, width);
    Narrow(SSig1(x as bv64, width), Std.SmallSigma1(x))
  }

  // ---------- and on words as integers ----------

  function ChWord(x: Std.word, y: Std.word, z: Std.word, width: Width): (r: Std.word)
    ensures r == Std.ChWord(x, y, z)
  {
    Std.FromBits(ChBits(x as bv32, y as bv32, z as bv32, width))
  }

  function MajWord(x: Std.word, y: Std.word, z: Std.word): (r: Std.word)
    ensures r == Std.MajWord(x, y, z)
  {
    Std.FromBits(MajBits(x as bv32, y as bv32, z as bv32))
  }

  function BSig0Word(x: Std.word, width: Width): (r: Std.word)
    ensures r == Std.BigSigma0Word(x)
  {
    Std.FromBits(BSig0Bits(x as bv32, width))
  }

  function BSig1Word(x: Std.word, width: Width): (r: Std.word)
    ensures r == Std.BigSigma1Word(x)
  {
    Std.FromBits(BSig1Bits(x as bv32, width))
  }

  function SSig0Word(x: Std.word, width: Width): (r: Std.word)
    ensures r == Std.SmallSigma0Word(x)
  {
    Std.FromBits(SSig0Bits(x as bv32, width))
  }

  function SSig1Word(x: Std.word, width: Width): (r: Std.word)
    ensures r == Std.SmallSigma1Word(x)
  {
    Std.FromBits(SSig1Bits(x as bv32, width))
  }

  // ---------- bytes and digits joined and split by shifts ----------

  lemma AppendBit(x: bv8, bit: bv8)
    requires x as int < 0x80 && bit < 2
    ensures ((x << 1) | bit) as int == 2 * (x as int) + bit as int
  {
    SmallBits(x);
    AppendRaw(x, bit);
  }

  lemma SmallBits(x: bv8)
    requires x as int < 0x80
    ensures x < 0x80
  {
  }

  lemma AppendRaw(x: bv8, bit: bv8)
    requires x < 0x80 && bit < 2
    ensures ((x << 1) | bit) as int == 2 * (x as int) + bit as int
  {
  }

  /** The bits of a byte. */
  function ToByte(b: Std.byte): (r: bv8)
    ensures r as int == b
  {
    if b == 0 then 0
    else
      var bit: bv8 := if b % 2 == 1 then 1 else 0;
      AppendBit(ToByte(b / 2), bit);
      (ToByte(b / 2) << 1) | bit
  }

  /** The four shifted bytes of a word, each cut to the width, joined with `|`. */
  function JoinedBits(b0: bv8, b1: bv8, b2: bv8, b3: bv8, mask: bv64): bv64 {
    ((b0 as bv64 << 24) & mask) | ((b1 as bv64 << 16) & mask) | ((b2 as bv64 << 8) & mask) | b3 as bv64
  }

  function Joined(b0: bv8, b1: bv8, b2: bv8, b3: bv8): bv64 {
    (b0 as bv64 << 24) | (b1 as bv64 << 16) | (b2 as bv64 << 8) | b3 as bv64
  }

  lemma CutShifts(b0: bv8, b1: bv8, b2: bv8, b3: bv8, mask: bv64)
    requires mask & 0xffff_ffff == 0xffff_ffff
    ensures JoinedBits(b0, b1, b2, b3, mask) == Joined(b0, b1, b2, b3)
  {
  }

  lemma JoinedRaw(b0: bv8, b1: bv8, b2: bv8, b3: bv8, w: bv64)
    requires w == (b0 as bv64 << 24) | (b1 as bv64 << 16) | (b2 as bv64 << 8) | b3 as bv64
    ensures w as int == (b0 as int) * 0x1000000 + (b1 as int) * 0x10000 + (b2 as int) * 0x100 + b3 as int
  {
  }

  lemma JoinedValue(b0: bv8, b1: bv8, b2: bv8, b3: bv8)
    ensures Joined(b0, b1, b2, b3) as int == (b0 as int) * 0x1000000 + (b1 as int) * 0x10000 + (b2 as int) * 0x100 + b3 as int
  {
    JoinedRaw(b0, b1, b2, b3, Joined(b0, b1, b2, b3));
    hide Joined;
  }

  /** Four bytes shifted into place share no bit, so joining them with `|` adds them up. */
  lemma JoinBytes(b0: bv8, b1: bv8, b2: bv8, b3: bv8, width: Width)
    ensures JoinedBits(b0, b1, b2, b3, WidthMask(width)) as int
      == (b0 as int) * 0x1000000 + (b1 as int) * 0x10000 + (b2 as int) * 0x100 + b3 as int
  {
    hide JoinedBits, Joined, WidthMask;
    CutShifts(b0, b1, b2, b3, WidthMask(width));
    JoinedValue(b0, b1, b2, b3);
  }

  function JoinedWord(b0: Std.byte, b1: Std.byte, b2: Std.byte, b3: Std.byte, width: Width): (w: Std.word)
    ensures w == Std.BigEndianWord(b0, b1, b2, b3)
  {
    hide ToByte, JoinedBits, WidthMask;
    JoinBytes(ToByte(b0), ToByte(b1), ToByte(b2), ToByte(b3), width);
    JoinedBits(ToByte(b0), ToByte(b1), ToByte(b2), ToByte(b3), WidthMask(width)) as int
  }

  /** The two bytes of a digit, as `static_cast<byte_t>` cuts them out of a word. */
  function HighByte(digit: bv16): bv8 {
    ((digit as bv64 >> 8) & 0xff) as bv8
  }

  function LowByte(digit: bv16): bv8 {
    (digit as bv64 & 0xff) as bv8
  }

  lemma ByteShifts(digit: bv16)
    ensures HighByte(digit) == (digit >> 8) as bv8 && LowByte(digit) == (digit & 0xff) as bv8
  {
  }

  lemma SplitBytes(digit: bv16)
    ensures digit as int == 0x100 * (((digit >> 8) as bv8) as int) + ((digit & 0xff) as bv8) as int
  {
  }

  lemma BytesOfDigit(digit: bv16)
    ensures HighByte(digit) as int == digit as int / 0x100 && LowByte(digit) as int == digit as int % 0x100
  {
    ByteShifts(digit);
    SplitBytes(digit);
    hide HighByte, LowByte;
  }

  lemma JoinDigit(high: bv8, low: bv8)
    ensures ((high as bv16 << 8) | low as bv16) as int == 0x100 * (high as int) + low as int
  {
  }

  function ToDigit(d: nat): (r: bv16)
    requires d < 0x1_0000
    ensures r as int == d
  {
    JoinDigit(ToByte(d / 0x100), ToByte(d % 0x100));
    hide ToByte;
    (ToByte(d / 0x100) as bv16 << 8) | ToByte(d % 0x100) as bv16
  }

  // ---------- a digit shifted three places left ----------

  /** `d <<= 3; d |= carry; d &= 65535u`. */
  function ShiftedBits(digit: bv16, carry: bv3, mask: bv64): bv64 {
    (((digit as bv64 << 3) & mask) | carry as bv64) & 65535
  }

  function Shifted3(digit: bv16, carry: bv3): bv16 {
    (((digit & 0x1fff) as bv13) as bv16 << 3) | carry as bv16
  }

  lemma CutShift(digit: bv16, carry: bv3, mask: bv64)
    requires mask & 0xffff_ffff == 0xffff_ffff
    ensures ShiftedBits(digit, carry, mask) == Shifted3(digit, carry) as bv64
  {
  }

  lemma Fits(x: bv64, y: bv16)
    requires x == y as bv64
    ensures x < 0x1_0000 && x as bv16 == y
  {
  }

  function ShiftedDigit(digit: bv16, carry: bv3, width: Width): (r: bv16)
    ensures r == Shifted3(digit, carry)
  {
    hide ShiftedBits, Shifted3, WidthMask;
    CutShift(digit, carry, WidthMask(width));
    Fits(ShiftedBits(digit, carry, WidthMask(width)), Shifted3(digit, carry));
    ShiftedBits(digit, carry, WidthMask(width)) as bv16
  }

  /** `(d >> (16 - 3)) & 65535u`. */
  function CarryOut(digit: bv16): bv3 {
    ((digit as bv64 >> 13) & 65535) as bv3
  }

  function Low13(digit: bv16): bv13 {
    (digit & 0x1fff) as bv13
  }

  lemma Shifted3Value(digit: bv16, carry: bv3)
    ensures Shifted3(digit, carry) as int == 8 * (Low13(digit) as int) + carry as int
  {
    JoinCarry(Low13(digit), carry);
  }

  lemma JoinCarry(low: bv13, carry: bv3)
    ensures ((low as bv16 << 3) | carry as bv16) as int == 8 * (low as int) + carry as int
  {
  }

  lemma CarryBits(digit: bv16)
    ensures CarryOut(digit) == (digit >> 13) as bv3
  {
  }

  lemma SplitRaw(digit: bv16)
    ensures digit as int == 0x2000 * (((digit >> 13) as bv3) as int) + ((digit & 0x1fff) as bv13) as int
  {
  }

  lemma SplitDigit(digit: bv16)
    ensures digit as int == 0x2000 * (CarryOut(digit) as int) + (Low13(digit) as int)
  {
    SplitRaw(digit);
    CarryBits(digit);
    hide CarryOut;
  }

  lemma Split(digit: nat, top: nat, low: nat, carry: nat)
    requires digit == 0x2000 * top + low && low < 0x2000 && top < 8 && carry < 8
    ensures 8 * low + carry == (8 * digit + carry) % 0x1_0000 && top == digit / 0x2000
  {
  }

  lemma ShiftedValue(digit: bv16, carry: bv3, width: Width)
    ensures ShiftedDigit(digit, carry, width) as int == 8 * (Low13(digit) as int) + carry as int
  {
    hide ShiftedDigit, Shifted3, Low13;
    Shifted3Value(digit, carry);
  }

  /** Three places left with the carry joined in, and the carry for the next digit. */
  lemma ShiftDigit(digit: bv16, carry: bv3, width: Width)
    ensures ShiftedDigit(digit, carry, width) as int == (8 * (digit as int) + carry as int) % 0x1_0000
    ensures CarryOut(digit) as int == digit as int / 0x2000
  {
    hide ShiftedDigit, CarryOut, Low13;
    ShiftedValue(digit, carry, width);
    SplitDigit(digit);
    Split(digit as int, CarryOut(digit) as int, Low13(digit) as int, carry as int);
  }
}
