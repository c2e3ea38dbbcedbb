/** The incremental hasher `hash256_one_by_one` of deps/include/picosha2.h and the two drivers over it. */
module Sha256Stream {
  import opened Sha256
  import opened Sha256Constants
  import opened Sha256Words
  import Std = Sha256Standard

  // ---------- the byte count in four 16-bit digits ----------

  predicate AreDigits(d: seq<nat>) {
    |d| == 4 && d[0] < 0x1_0000 && d[1] < 0x1_0000 && d[2] < 0x1_0000 && d[3] < 0x1_0000
  }

  /** The number four digits stand for, least significant first. */
  function Value(d: seq<nat>): nat
    requires |d| == 4
  {
    d[0] + 0x1_0000 * d[1] + 0x1_0000_0000 * d[2] + 0x1_0000_0000_0000 * d[3]
  }

  /** The digits count `count` bytes, as far as 64 bits can. */
  predicate Counts(d: seq<nat>, count: nat) {
    AreDigits(d) && Value(d) == count % 0x1_0000_0000_0000_0000
  }

  /** A carry about to enter digit `i`. */
  function CarryValue(carry: nat, i: nat): nat {
    if i == 0 then carry
    else if i == 1 then 0x1_0000 * carry
    else if i == 2 then 0x1_0000_0000 * carry
    else if i == 3 then 0x1_0000_0000_0000 * carry
    else 0x1_0000_0000_0000_0000 * carry
  }

  lemma AddFirst(d: seq<nat>, n: nat)
    requires |d| == 4
    ensures Value(d[0 := d[0] + n]) + CarryValue(0, 0) == Value(d) + n
  {
  }

  /** Normalising digit `i` after a carry entered it keeps the number: the excess is carried on. */
  lemma CarryOn(d: seq<nat>, carry: nat, i: nat)
    requires |d| == 4 && i < 4
    ensures Value(d[i := (d[i] + carry) % 0x1_0000]) + CarryValue((d[i] + carry) / 0x1_0000, i + 1) == Value(d) + CarryValue(carry, i)
  {
    var q, r := (d[i] + carry) / 0x1_0000, (d[i] + carry) % 0x1_0000;
    assert d[i] + carry == 0x1_0000 * q + r;
  }

  /** Digits that, with a carry out of the last of them, add up to `count` hold it modulo 2^64. */
  lemma Overflow(d: seq<nat>, carry: nat, count: nat)
    requires AreDigits(d) && Value(d) + CarryValue(carry, 4) == count
    ensures Value(d) == count % 0x1_0000_0000_0000_0000
  {
  }

  lemma CarryNone()
    ensures forall i: nat :: CarryValue(0, i) == 0
  {
  }

  lemma CountGrows(d: seq<nat>, e: seq<nat>, count: nat, n: nat)
    requires Counts(d, count) && AreDigits(e) && Value(e) == (Value(d) + n) % 0x1_0000_0000_0000_0000
    ensures Counts(e, count + n)
  {
    hide Value;
  }

  lemma Settled(d: seq<nat>, carry: nat, i: nat, count: nat)
    requires AreDigits(d) && carry == 0 && Value(d) + CarryValue(carry, i) == count
    ensures Value(d) == count % 0x1_0000_0000_0000_0000
  {
  }

  /** Shifting digit `i` three places left brings in the carry and sends out the three top bits. */
  lemma ShiftOn(d: seq<nat>, bits: seq<nat>, carry: nat, i: nat)
    requires AreDigits(d) && |bits| == 4 && i < 4 && carry < 8 && bits[i] == d[i]
    ensures var shifted := (8 * d[i] + carry) % 0x1_0000;
            && d[i] / 0x2000 < 8
            && Shifted(d, bits[i := shifted], i + 1) + CarryValue(d[i] / 0x2000, i + 1) == Shifted(d, bits, i) + CarryValue(carry, i)
  {
    var q, r := (8 * d[i] + carry) / 0x1_0000, (8 * d[i] + carry) % 0x1_0000;
    assert 8 * d[i] + carry == 0x1_0000 * q + r;
    assert q == d[i] / 0x2000;
  }

  /** The number held when the digits below `i` are already those of the bit count. */
  function Shifted(d: seq<nat>, bits: seq<nat>, i: nat): nat
    requires |d| == |bits| == 4
  {
    (if 0 < i then bits[0] else 8 * d[0])
    + 0x1_0000 * (if 1 < i then bits[1] else 8 * d[1])
    + 0x1_0000_0000 * (if 2 < i then bits[2] else 8 * d[2])
    + 0x1_0000_0000_0000 * (if 3 < i then bits[3] else 8 * d[3])
  }

  lemma ShiftedEnds(d: seq<nat>, bits: seq<nat>)
    requires |d| == |bits| == 4
    ensures Shifted(d, bits, 0) == 8 * Value(d)
    ensures Shifted(d, bits, 4) == Value(bits)
  {
  }

  lemma {:induction false} BigEndianMod(x: nat, k: nat, n: nat)
    ensures Std.BigEndian(x + k * Std.Power256(n), n) == Std.BigEndian(x, n)
  {
    if n > 0 {
      var p := k * Std.Power256(n - 1);
      assert k * Std.Power256(n) == 256 * p by {
        assert k * (256 * Std.Power256(n - 1)) == 256 * (k * Std.Power256(n - 1));
      }
      assert (x + 256 * p) % 256 == x % 256 && (x + 256 * p) / 256 == x / 256 + p;
      BigEndianMod(x / 256, k, n - 1);
    }
  }

  lemma Power256Of8()
    ensures Std.Power256(8) == 0x1_0000_0000_0000_0000
  {
    assert Std.Power256(4) == 0x1_0000_0000;
    assert Std.Power256(6) == 0x1_0000_0000_0000;
  }

  function DigitBytes(d: seq<nat>): (b: seq<Std.byte>)
    requires AreDigits(d)
    ensures |b| == 8
  {
    [d[3] / 256, d[3] % 256, d[2] / 256, d[2] % 256, d[1] / 256, d[1] % 256, d[0] / 256, d[0] % 256]
  }

  lemma BigEndianTwo(x: nat, low: nat, n: nat)
    requires low < 0x1_0000
    ensures Std.BigEndian(0x1_0000 * x + low, n + 2) == Std.BigEndian(x, n) + [low / 256, low % 256]
  {
    var y := 0x1_0000 * x + low;
    assert y / 256 == 256 * x + low / 256 && y % 256 == low % 256;
    assert (y / 256) / 256 == x && (y / 256) % 256 == low / 256;
    assert Std.BigEndian(y, n + 2) == Std.BigEndian(y / 256, n + 1) + [y % 256];
    assert Std.BigEndian(y / 256, n + 1) == Std.BigEndian(x, n) + [low / 256];
  }

  lemma BigEndianDigits(v: nat, x1: nat, x2: nat, d: seq<nat>)
    requires AreDigits(d) && v == 0x1_0000 * x1 + d[0] && x1 == 0x1_0000 * x2 + d[1] && x2 == 0x1_0000 * d[3] + d[2]
    ensures DigitBytes(d) == Std.BigEndian(v, 8)
  {
    assert Std.BigEndian(0, 0) == [];
    hide Std.BigEndian;
    BigEndianTwo(x1, d[0], 6);
    BigEndianTwo(x2, d[1], 4);
    BigEndianTwo(d[3], d[2], 2);
    BigEndianTwo(0, d[3], 0);
  }

  lemma DigitBytesAreBigEndian(d: seq<nat>)
    requires AreDigits(d)
    ensures DigitBytes(d) == Std.BigEndian(Value(d), 8)
  {
    hide DigitBytes, Std.BigEndian;
    BigEndianDigits(Value(d), d[1] + 0x1_0000 * d[2] + 0x1_0000_0000 * d[3], d[2] + 0x1_0000 * d[3], d);
  }

  /** The bytes of the digits from the last down to digit `i`. */
  function BytesFrom(d: seq<nat>, i: nat): (b: seq<Std.byte>)
    requires AreDigits(d) && i <= 4
    ensures |b| == 2 * (4 - i)
    decreases 4 - i
  {
    if i == 4 then [] else BytesFrom(d, i + 1) + [d[i] / 256, d[i] % 256]
  }

  lemma AllBytes(d: seq<nat>)
    requires AreDigits(d)
    ensures BytesFrom(d, 0) == DigitBytes(d)
  {
    assert BytesFrom(d, 4) == [];
    assert BytesFrom(d, 2) == [d[3] / 256, d[3] % 256, d[2] / 256, d[2] % 256];
  }

  /** Eight bytes hold a bit length modulo 2^64, whatever the byte count's digits left out. */
  lemma BitLengthBytes(d: seq<nat>, count: nat, bits: seq<nat>)
    requires Counts(d, count)
    requires AreDigits(bits) && Value(bits) == 8 * Value(d) % 0x1_0000_0000_0000_0000
    ensures DigitBytes(bits) == Std.BigEndian(8 * count, 8)
  {
    DigitBytesAreBigEndian(bits);
    var m := 0x1_0000_0000_0000_0000;
    var k := 8 * (count / m) + 8 * Value(d) / m;
    assert 8 * count == Value(bits) + k * m;
    Power256Of8();
    BigEndianMod(Value(bits), k, 8);
  }

  // ---------- hashing the blocks of a growing message ----------

  lemma {:induction false} HashBlocksPrefix(x: seq<Std.byte>, y: seq<Std.byte>, n: nat)
    requires 64 * n <= |x| && 64 * n <= |y| && x[..64 * n] == y[..64 * n]
    ensures Std.HashBlocks(x, n) == Std.HashBlocks(y, n)
  {
    hide Std.Compress;
    if n > 0 {
      assert x[..64 * (n - 1)] == x[..64 * n][..64 * (n - 1)] && y[..64 * (n - 1)] == y[..64 * n][..64 * (n - 1)];
      HashBlocksPrefix(x, y, n - 1);
      assert x[64 * n - 64..64 * n] == x[..64 * n][64 * n - 64..] && y[64 * n - 64..64 * n] == y[..64 * n][64 * n - 64..];
    }
  }

  /** What is left of the message after its last whole block. */
  function Tail(message: seq<Std.byte>): (t: seq<Std.byte>)
    ensures |t| < 64 && |t| == |message| - 64 * (|message| / 64)
  {
    message[64 * (|message| / 64)..]
  }

  lemma TailFrom(message: seq<Std.byte>, n: nat)
    requires 64 * n <= |message| < 64 * n + 64
    ensures n == |message| / 64 && Tail(message) == message[64 * n..]
  {
  }

  lemma HashNext(message: seq<Std.byte>, n: nat)
    requires 64 * n + 64 <= |message|
    ensures Std.HashBlocks(message, n + 1) == Std.Compress(Std.HashBlocks(message, n), message[64 * n..64 * n + 64])
  {
  }

  lemma HashPadded(message: seq<Std.byte>, padded: seq<Std.byte>, n: nat)
    requires padded == Std.Pad(message) && |padded| == 64 * n
    ensures Std.HashMessage(message) == Std.HashBlocks(padded, n)
  {
    hide Std.Pad, Std.HashBlocks;
    assert |padded| / 64 == n;
  }

  function ClosingZeros(rest: nat): nat
    requires rest < 64
  {
    if rest <= 55 then 55 - rest else 119 - rest
  }

  /** The padded message keeps the whole blocks of the message and ends in one or two more. */
  lemma PadEnd(message: seq<Std.byte>, length: seq<Std.byte>)
    requires length == Std.BigEndian(8 * |message|, 8)
    ensures var n, tail := |message| / 64, Tail(message);
            var end := tail + [0x80] + Std.Zeros(ClosingZeros(|tail|)) + length;
            var padded := Std.Pad(message);
            && |padded| == 64 * n + |end| && padded[..64 * n] == message[..64 * n] && padded[64 * n..] == end
  {
    hide Std.BigEndian, Std.Zeros;
    assert (119 - |message| % 64) % 64 == ClosingZeros(|Tail(message)|);
  }

  lemma PadOneBlock(message: seq<Std.byte>, padded: seq<Std.byte>, n: nat, tail: seq<Std.byte>, length: seq<Std.byte>)
    requires padded == Std.Pad(message) && n == |message| / 64 && tail == Tail(message) && |tail| <= 55
    requires length == Std.BigEndian(8 * |message|, 8)
    ensures |padded| == 64 * n + 64 && padded[..64 * n] == message[..64 * n]
    ensures padded[64 * n..64 * n + 56] == tail + [0x80] + Std.Zeros(55 - |tail|)
    ensures padded[64 * n + 56..64 * n + 64] == length
  {
    hide Std.Pad, Std.BigEndian, Std.Zeros, Tail;
    PadEnd(message, length);
    var front := tail + [0x80] + Std.Zeros(55 - |tail|);
    assert |front| == 56 && padded[64 * n..] == front + length;
    CutTwo(padded, 64 * n, front, length);
  }

  lemma PadTwoBlocks(message: seq<Std.byte>, padded: seq<Std.byte>, n: nat, tail: seq<Std.byte>, length: seq<Std.byte>)
    requires padded == Std.Pad(message) && n == |message| / 64 && tail == Tail(message) && |tail| > 55
    requires length == Std.BigEndian(8 * |message|, 8)
    ensures |padded| == 64 * n + 128 && padded[..64 * n] == message[..64 * n]
    ensures padded[64 * n..64 * n + 64] == tail + [0x80] + Std.Zeros(63 - |tail|)
    ensures padded[64 * n + 64..64 * n + 120] == Std.Zeros(56) && padded[64 * n + 120..64 * n + 128] == length
  {
    hide Std.Pad, Std.BigEndian, Std.Zeros, Tail;
    PadEnd(message, length);
    var first, second := Std.Zeros(63 - |tail|), Std.Zeros(56);
    ZerosSplit(63 - |tail|, 56);
    assert padded[64 * n..] == tail + [0x80] + (first + second) + length;
    Regroup(tail + [0x80], first, second, length);
    CutThree(padded, 64 * n, tail + [0x80] + first, second, length);
  }

  lemma Regroup(w: seq<Std.byte>, x: seq<Std.byte>, y: seq<Std.byte>, z: seq<Std.byte>)
    ensures w + (x + y) + z == (w + x) + y + z
  {
    assert w + (x + y) == w + x + y;
  }

  lemma ZerosSplit(m: nat, n: nat)
    ensures Std.Zeros(m + n) == Std.Zeros(m) + Std.Zeros(n)
  {
  }

  lemma ZerosCut(m: nat, n: nat)
    requires n <= m
    ensures Std.Zeros(m)[..n] == Std.Zeros(n)
  {
  }

  lemma CutTwo(s: seq<Std.byte>, at: nat, x: seq<Std.byte>, y: seq<Std.byte>)
    requires at <= |s| && s[at..] == x + y
    ensures |s| == at + |x| + |y| && s[at..at + |x|] == x && s[at + |x|..] == y
  {
    assert s[at..at + |x|] == s[at..][..|x|] && s[at + |x|..] == s[at..][|x|..];
  }

  lemma CutThree(s: seq<Std.byte>, at: nat, x: seq<Std.byte>, y: seq<Std.byte>, z: seq<Std.byte>)
    requires at <= |s| && s[at..] == x + y + z
    ensures |s| == at + |x| + |y| + |z| && s[at..at + |x|] == x
    ensures s[at + |x|..at + |x| + |y|] == y && s[at + |x| + |y|..] == z
  {
    assert x + (y + z) == x + y + z;
    CutTwo(s, at, x, y + z);
    CutTwo(s, at + |x|, y, z);
  }

  /** The byte `24 - 8 * i` places up in a word. */
  function ByteAt(x: nat, i: nat): Std.byte
    requires i < 4
  {
    (if i == 0 then x / 0x1000000 else if i == 1 then x / 0x10000 else if i == 2 then x / 0x100 else x) % 0x100
  }

  lemma DigestAt(h: seq<nat>, k: nat, i: nat)
    requires |h| == 8 && AreWords(h) && k < 8 && i < 4
    ensures Std.Digest(ToWords(h))[4 * k + i] == ByteAt(h[k], i)
  {
    assert Std.WordBytes(h[k])[i] == ByteAt(h[k], i);
    hide Std.WordBytes, ByteAt;
  }

  /** `std::copy` to the front of an array. */
  method CopyTo(data: seq<Std.byte>, a: array<Std.byte>)
    requires |data| <= a.Length
    modifies a
    ensures a[..|data|] == data && a[|data|..] == old(a[|data|..])
  {
    forall i | 0 <= i < |data| {
      a[i] := data[i];
    }
  }

  /** `std::fill` with zeros. */
  method Fill(a: array<Std.byte>, first: nat, last: nat)
    requires first <= last <= a.Length
    modifies a
    ensures a[..first] == old(a[..first]) && a[first..last] == Std.Zeros(last - first) && a[last..] == old(a[last..])
  {
    forall i | first <= i < last {
      a[i] := 0;
    }
  }

  class Hash256OneByOne {
    const width: Width
    var buffer: seq<Std.byte>
    const digits: array<nat>
    const h: array<nat>

    // The message given to `Process` so far.
    ghost var message: seq<Std.byte>

    ghost predicate Shape()
      reads this, h
    {
      digits.Length == 4 && h.Length == 8 && digits != h && AreWords(h[..])
    }

    /** The whole blocks of the message are hashed, its tail is buffered, its length is counted. */
    ghost predicate Valid()
      reads this, digits, h
    {
      && Shape()
      && Counts(digits[..], |message|)
      && buffer == Tail(message)
      && ToWords(h[..]) == Std.HashBlocks(message, |message| / 64)
    }

    constructor (width: Width)
      ensures Valid() && message == [] && fresh(digits) && fresh(h) && this.width == width
    {
      this.width := width;
      digits := new nat[4];
      h := new nat[8];
      buffer := [];
      message := [];
      new;
      Init();
    }

    method Init()
      requires digits.Length == 4 && h.Length == 8 && digits != h
      modifies this, digits, h
      ensures Valid() && message == []
    {
      buffer := [];
      message := [];
      forall i | 0 <= i < 4 {
        digits[i] := 0;
      }
      InitialIsStandard();
      forall i | 0 <= i < 8 {
        h[i] := INITIAL_MESSAGE_DIGEST[i];
      }
      assert ToWords(h[..]) == Std.HashBlocks(message, 0);
    }

    method Process(data: seq<Std.byte>)
      requires Valid() && |data| < Modulus(width) / 2
      modifies this, digits, h
      ensures Valid() && message == old(message) + data
    {
      hide Std.HashBlocks, Std.Compress, Counts, Tail;
      AddToDataLength(|data|, |message|);
      ghost var counted := digits[..];
      TailFrom(message, |message| / 64);
      ghost var n := |message| / 64;
      HashBlocksPrefix(message, message + data, n);
      message := message + data;
      buffer := buffer + data;
      assert buffer == message[64 * n..];
      var i: nat := 0;
      while i + 64 <= |buffer|
        invariant i <= |buffer| && 64 * n <= |message| && |message| - 64 * n == |buffer| - i
        invariant message[64 * n..] == buffer[i..]
        invariant AreWords(h[..]) && ToWords(h[..]) == Std.HashBlocks(message, n)
        modifies h
      {
        assert buffer[i..i + 64] == message[64 * n..64 * n + 64];
        Hash256Block(h, buffer[i..i + 64], width);
        HashNext(message, n);
        i := i + 64;
        n := n + 1;
      }
      assert digits[..] == counted;
      TailFrom(message, n);
      buffer := buffer[i..];
    }

    /** `finish` up to the length: a tail that leaves no room for it closes a block of its own. */
    method PadTail(temp: array<Std.byte>, ghost padded: seq<Std.byte>) returns (ghost n: nat)
      requires Valid() && temp.Length == 64 && padded == Std.Pad(message)
      modifies temp, h
      ensures Shape() && |padded| == 64 * n + 64 && padded[64 * n + 56..] == Std.BigEndian(8 * |message|, 8)
      ensures temp[..56] == padded[64 * n..64 * n + 56] && ToWords(h[..]) == Std.HashBlocks(padded, n)
    {
      hide Std.HashBlocks, Std.Compress, Std.Pad, Std.BigEndian, Std.Zeros, Counts, Tail, ToWords;
      n := |message| / 64;
      ghost var start := h[..];
      assert ToWords(start) == Std.HashBlocks(message, n);
      var remains := |buffer|;
      CopyTo(buffer, temp);
      temp[remains] := 0x80;
      assert temp[..remains + 1] == buffer + [0x80];
      ghost var length := Std.BigEndian(8 * |message|, 8);
      if remains > 55 {
        PadTwoBlocks(message, padded, n, buffer, length);
        HashBlocksPrefix(message, padded, n);
        Fill(temp, remains + 1, 64);
        assert temp[..] == temp[..remains + 1] + temp[remains + 1..64] && h[..] == start;
        Hash256Block(h, temp[..], width);
        HashNext(padded, n);
        assert ToWords(h[..]) == Std.HashBlocks(padded, n + 1);
        ghost var words := h[..];
        Fill(temp, 0, 60);
        assert h[..] == words;
        assert temp[..56] == temp[0..60][..56];
        ZerosCut(60, 56);
        n := n + 1;
      } else {
        PadOneBlock(message, padded, n, buffer, length);
        HashBlocksPrefix(message, padded, n);
        Fill(temp, remains + 1, 60);
        assert h[..] == start;
        assert temp[..56] == temp[..remains + 1] + temp[remains + 1..60][..55 - remains];
        ZerosCut(59 - remains, 55 - remains);
      }
    }

    method Finish()
      requires Valid()
      modifies h
      ensures Shape() && ToWords(h[..]) == Std.HashMessage(message)
    {
      hide Std.HashBlocks, Std.Compress, Std.Pad, Std.BigEndian, Std.Zeros, Tail, ToWords;
      var temp := new Std.byte[64](_ => 0);
      ghost var padded := Std.Pad(message);
      ghost var n := PadTail(temp, padded);
      WriteDataBitLength(temp, 56, |message|);
      assert temp[..] == temp[..56] + temp[56..64];
      assert padded[64 * n..64 * n + 64] == padded[64 * n..64 * n + 56] + padded[64 * n + 56..];
      Hash256Block(h, temp[..], width);
      HashNext(padded, n);
      HashPadded(message, padded, n + 1);
    }

    method GetHashBytes(out: array<Std.byte>)
      requires Shape()
      modifies out
      ensures forall j :: 0 <= j < out.Length ==> out[j] == if j < 32 then Std.Digest(ToWords(h[..]))[j] else old(out[j])
    {
      hide Std.Digest, ToWords, ByteAt;
      var first := 0;
      ghost var digest := Std.Digest(ToWords(h[..]));
      for k := 0 to 8
        invariant first == if 4 * k <= out.Length then 4 * k else out.Length
        invariant forall j :: 0 <= j < first ==> out[j] == digest[j]
        invariant forall j :: first <= j < out.Length ==> out[j] == old(out[j])
      {
        for i := 0 to 4
          invariant first == if 4 * k + i <= out.Length then 4 * k + i else out.Length
          invariant forall j :: 0 <= j < first ==> out[j] == digest[j]
          invariant forall j :: first <= j < out.Length ==> out[j] == old(out[j])
        {
          if first == out.Length {
            break;
          }
          DigestAt(h[..], k, i);
          out[first] := ByteAt(h[k], i);
          first := first + 1;
        }
      }
    }

    method AddToDataLength(n: nat, ghost count: nat)
      requires digits.Length == 4 && Counts(digits[..], count) && n < Modulus(width) / 2
      modifies digits
      ensures Counts(digits[..], count + n)
    {
      hide Value, CarryValue, Modulus, Add;
      ghost var start := digits[..];
      assert AreDigits(start);
      ghost var total := Value(start) + n;
      AddFirst(digits[..], n);
      var carry: nat := 0;
      AddFits(digits[0], n, width);
      digits[0] := Add(digits[0], n, width);
      var i: nat := 0;
      while i < 4
        invariant 0 <= i <= 4
        invariant forall j :: 0 <= j < 4 && (j < i || 0 < j) ==> digits[j] < 0x1_0000
        invariant i < 4 ==> digits[i] + carry < Modulus(width)
        invariant Value(digits[..]) + CarryValue(carry, i) == total
      {
        ghost var before := digits[..];
        CarryOn(before, carry, i);
        AddFits(digits[i], carry, width);
        digits[i] := Add(digits[i], carry, width);
        if digits[i] >= 0x1_0000 {
          carry := digits[i] / 0x1_0000;
          digits[i] := digits[i] % 0x1_0000;
          assert digits[..] == before[i := digits[i]];
        } else {
          assert digits[..] == before[i := digits[i]];
          Settled(digits[..], (before[i] + carry) / 0x1_0000, i + 1, total);
          break;
        }
        i := i + 1;
      }
      if i == 4 {
        Overflow(digits[..], carry, total);
      }
      hide AreDigits, Counts;
      CountGrows(start, digits[..], count, n);
    }

    method CopyDigits() returns (bits: array<bv16>)
      requires digits.Length == 4 && AreDigits(digits[..])
      ensures fresh(bits) && bits.Length == 4 && forall j :: 0 <= j < 4 ==> bits[j] as int == digits[j]
    {
      hide ToDigit;
      bits := new bv16[4](_ => 0);
      for j := 0 to 4
        invariant forall k :: 0 <= k < j ==> bits[k] as int == digits[k]
      {
        bits[j] := ToDigit(digits[j]);
      }
    }

    method WriteDataBitLength(temp: array<Std.byte>, begin: nat, ghost count: nat)
      requires digits.Length == 4 && Counts(digits[..], count)
      requires begin + 8 <= temp.Length
      modifies temp
      ensures temp[..begin] == old(temp[..begin]) && temp[begin + 8..] == old(temp[begin + 8..])
      ensures temp[begin..begin + 8] == Std.BigEndian(8 * count, 8)
    {
      hide Value, CarryValue, Shifted, ShiftedDigit, CarryOut, DigitBytes, Std.BigEndian;
      var bits := CopyDigits();
      ghost var start, shifted := digits[..], digits[..];
      var carry: bv3 := 0;
      ShiftedEnds(start, shifted);
      CarryNone();
      for i := 0 to 4
        invariant |shifted| == 4 && forall j :: 0 <= j < 4 ==> bits[j] as int == shifted[j]
        invariant forall j :: i <= j < 4 ==> shifted[j] == start[j]
        invariant Shifted(start, shifted, i) + CarryValue(carry as int, i) == 8 * Value(start)
        modifies bits
      {
        ShiftOn(start, shifted, carry as int, i);
        ShiftDigit(bits[i], carry, width);
        var beforeVal := bits[i];
        bits[i] := ShiftedDigit(beforeVal, carry, width);
        shifted := shifted[i := bits[i] as int];
        carry := CarryOut(beforeVal);
      }
      ShiftedEnds(start, shifted);
      assert digits[..] == start;
      Overflow(shifted, carry as int, 8 * Value(start));
      BitLengthBytes(start, count, shifted);
      WriteDigits(bits, temp, begin, shifted);
    }

    method WriteDigit(digit: bv16, temp: array<Std.byte>, begin: nat) returns (end: nat)
      requires begin + 2 <= temp.Length
      modifies temp
      ensures end == begin + 2
      ensures temp[..begin] == old(temp[..begin]) && temp[end..] == old(temp[end..])
      ensures temp[begin..end] == [digit as int / 256, digit as int % 256]
    {
      hide HighByte, LowByte;
      BytesOfDigit(digit);
      end := begin;
      temp[end] := HighByte(digit) as int;
      end := end + 1;
      temp[end] := LowByte(digit) as int;
      end := end + 1;
    }

    /** The second loop of `write_data_bit_length`. */
    method WriteDigits(bits: array<bv16>, temp: array<Std.byte>, begin: nat, ghost value: seq<nat>)
      requires bits.Length == 4 && AreDigits(value) && forall j :: 0 <= j < 4 ==> bits[j] as int == value[j]
      requires begin + 8 <= temp.Length
      modifies temp
      ensures temp[..begin] == old(temp[..begin]) && temp[begin + 8..] == old(temp[begin + 8..])
      ensures temp[begin..begin + 8] == DigitBytes(value)
    {
      var at := begin;
      AllBytes(value);
      for i := 4 downto 0
        invariant at == begin + 2 * (4 - i)
        invariant temp[..begin] == old(temp[..begin]) && temp[at..] == old(temp[at..])
        invariant temp[begin..at] == BytesFrom(value, i)
      {
        ghost var start, written := at, temp[..at];
        at := WriteDigit(bits[i], temp, at);
        assert temp[..begin] == temp[..start][..begin] == written[..begin];
        assert temp[begin..at] == temp[..start][begin..] + temp[start..at];
      }
    }
  }

  // ---------- the drivers ----------

  /** The random-access overload of `hash256_impl`. */
  method Hash256(bytes: seq<Std.byte>, out: array<Std.byte>, width: Width)
    requires |bytes| < Modulus(width) / 2
    modifies out
    ensures forall j :: 0 <= j < out.Length ==> out[j] == if j < 32 then Std.Sha256(bytes)[j] else old(out[j])
  {
    var hasher := new Hash256OneByOne(width);
    hasher.Process(bytes);
    assert hasher.message == bytes;
    hasher.Finish();
    hasher.GetHashBytes(out);
  }

  /** The inner loop of the input-iterator overload: the buffer takes what fits of the rest. */
  method FillBuffer(bytes: seq<Std.byte>, start: nat, buffer: array<Std.byte>) returns (size: nat, first: nat)
    requires start < |bytes| && 0 < buffer.Length
    modifies buffer
    ensures 0 < size <= buffer.Length && first == start + size <= |bytes|
    ensures buffer[..size] == bytes[start..first]
    ensures size < buffer.Length ==> first == |bytes|
  {
    size := buffer.Length;
    first := start;
    var i := 0;
    while i != buffer.Length
      invariant i <= buffer.Length && first == start + i <= |bytes|
      invariant buffer[..i] == bytes[start..first]
    {
      if first == |bytes| {
        size := i;
        break;
      }
      buffer[i] := bytes[first];
      i := i + 1;
      first := first + 1;
    }
  }

  /** The outer loop of the input-iterator overload. */
  method ProcessAll(bytes: seq<Std.byte>, hasher: Hash256OneByOne, buffer: array<Std.byte>)
    requires hasher.Valid() && hasher.message == []
    requires 0 < buffer.Length < Modulus(hasher.width) / 2
    modifies buffer, hasher, hasher.digits, hasher.h
    ensures hasher.Valid() && hasher.message == bytes
  {
    hide Hash256OneByOne.Valid, Modulus;
    var first := 0;
    while first != |bytes|
      invariant first <= |bytes|
      invariant hasher.Valid() && hasher.message == bytes[..first]
      decreases |bytes| - first
    {
      var size, next := FillBuffer(bytes, first, buffer);
      assert bytes[..first] + bytes[first..next] == bytes[..next];
      first := next;
      hasher.Process(buffer[..size]);
    }
    assert bytes[..first] == bytes;
  }

  /** The input-iterator overload: the digest is the same for every positive buffer size. */
  method Hash256Buffered(bytes: seq<Std.byte>, out: array<Std.byte>, bufferSize: nat, width: Width)
    requires 0 < bufferSize < 0x8000_0000
    modifies out
    ensures forall j :: 0 <= j < out.Length ==> out[j] == if j < 32 then Std.Sha256(bytes)[j] else old(out[j])
  {
    hide Hash256OneByOne.Valid, Std.Digest, Std.HashMessage, ToWords, Modulus;
    var buffer := new Std.byte[bufferSize](_ => 0);
    var hasher := new Hash256OneByOne(width);
    ProcessAll(bytes, hasher, buffer);
    hasher.Finish();
    hasher.GetHashBytes(out);
  }

  function Flatten(chunks: seq<seq<Std.byte>>): seq<Std.byte> {
    if chunks == [] then [] else Flatten(chunks[..|chunks| - 1]) + chunks[|chunks| - 1]
  }

  /** However a message is cut into `process` calls, `finish` leaves the digest of the whole of it. */
  method HashChunks(chunks: seq<seq<Std.byte>>, width: Width) returns (digest: seq<Std.byte>)
    requires forall k :: 0 <= k < |chunks| ==> |chunks[k]| < Modulus(width) / 2
    ensures digest == Std.Sha256(Flatten(chunks))
  {
    hide Hash256OneByOne.Valid, Std.Digest, Std.HashMessage, ToWords, Modulus;
    var hasher := new Hash256OneByOne(width);
    for k := 0 to |chunks|
      invariant hasher.Valid() && hasher.message == Flatten(chunks[..k]) && hasher.width == width
      invariant fresh(hasher) && fresh(hasher.digits) && fresh(hasher.h)
    {
      hasher.Process(chunks[k]);
      assert chunks[..k + 1][..k] == chunks[..k];
    }
    assert chunks[..|chunks|] == chunks;
    hasher.Finish();
    var out := new Std.byte[32](_ => 0);
    hasher.GetHashBytes(out);
    digest := out[..];
  }
}
