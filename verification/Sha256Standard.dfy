/** SHA-256 as FIPS 180-4 defines it, for messages that are whole bytes. */
module Sha256Standard {

  type byte = x: int | 0 <= x < 0x100
  type word = x: int | 0 <= x < 0x1_0000_0000

  /** The eight words of an intermediate hash value, or the eight working variables. */
  datatype Words = Words(a: word, b: word, c: word, d: word, e: word, f: word, g: word, h: word)

  // ---------- sections 4.1.2 and 4.2.2: functions and constants ----------

  function Add(x: word, y: word): word {
    (x + y) % 0x1_0000_0000
  }

  function FromBits(x: bv32): word {
    x as int
  }

  function RotR(x: bv32, n: bv6): bv32
    requires n < 32
  {
    (x >> n) | (x << (32 - n))
  }

  function Ch(x: bv32, y: bv32, z: bv32): bv32 {
    (x & y) ^ (!x & z)
  }

  function Maj(x: bv32, y: bv32, z: bv32): bv32 {
    (x & y) ^ (x & z) ^ (y & z)
  }

  function BigSigma0(x: bv32): bv32 {
    RotR(x, 2) ^ RotR(x, 13) ^ RotR(x, 22)
  }

  function BigSigma1(x: bv32): bv32 {
    RotR(x, 6) ^ RotR(x, 11) ^ RotR(x, 25)
  }

  function SmallSigma0(x: bv32): bv32 {
    RotR(x, 7) ^ RotR(x, 18) ^ (x >> 3)
  }

  function SmallSigma1(x: bv32): bv32 {
    RotR(x, 17) ^ RotR(x, 19) ^ (x >> 10)
  }

  // The same functions on words as integers, which is how the sums need them.

  function ChWord(x: word, y: word, z: word): word {
    FromBits(Ch(x as bv32, y as bv32, z as bv32))
  }

  function MajWord(x: word, y: word, z: word): word {
    FromBits(Maj(x as bv32, y as bv32, z as bv32))
  }

  function BigSigma0Word(x: word): word {
    FromBits(BigSigma0(x as bv32))
  }

  function BigSigma1Word(x: word): word {
    FromBits(BigSigma1(x as bv32))
  }

  function SmallSigma0Word(x: word): word {
    FromBits(SmallSigma0(x as bv32))
  }

  function SmallSigma1Word(x: word): word {
    FromBits(SmallSigma1(x as bv32))
  }

  /** Eight of the constants of section 4.2.2. */
  function KRow(row: nat): (r: seq<word>)
    requires row < 8
    ensures |r| == 8
  {
    if row == 0 then [0x428a2f98, 0x71374491, 0xb5c0fbcf, 0xe9b5dba5, 0x3956c25b, 0x59f111f1, 0x923f82a4, 0xab1c5ed5]
    else if row == 1 then [0xd807aa98, 0x12835b01, 0x243185be, 0x550c7dc3, 0x72be5d74, 0x80deb1fe, 0x9bdc06a7, 0xc19bf174]
    else if row == 2 then [0xe49b69c1, 0xefbe4786, 0x0fc19dc6, 0x240ca1cc, 0x2de92c6f, 0x4a7484aa, 0x5cb0a9dc, 0x76f988da]
    else if row == 3 then [0x983e5152, 0xa831c66d, 0xb00327c8, 0xbf597fc7, 0xc6e00bf3, 0xd5a79147, 0x06ca6351, 0x14292967]
    else if row == 4 then [0x27b70a85, 0x2e1b2138, 0x4d2c6dfc, 0x53380d13, 0x650a7354, 0x766a0abb, 0x81c2c92e, 0x92722c85]
    else if row == 5 then [0xa2bfe8a1, 0xa81a664b, 0xc24b8b70, 0xc76c51a3, 0xd192e819, 0xd6990624, 0xf40e3585, 0x106aa070]
    else if row == 6 then [0x19a4c116, 0x1e376c08, 0x2748774c, 0x34b0bcb5, 0x391c0cb3, 0x4ed8aa4a, 0x5b9cca4f, 0x682e6ff3]
    else [0x748f82ee, 0x78a5636f, 0x84c87814, 0x8cc70208, 0x90befffa, 0xa4506ceb, 0xbef9a3f7, 0xc67178f2]
  }

  function K(t: nat): word
    requires t < 64
  {
    KRow(t / 8)[t % 8]
  }

  /** Section 5.3.3. */
  const H0: Words := Words(0x6a09e667, 0xbb67ae85, 0x3c6ef372, 0xa54ff53a, 0x510e527f, 0x9b05688c, 0x1f83d9ab, 0x5be0cd19)

  // ---------- section 6.2.2: the hash computation ----------

  type Block = b: seq<byte> | |b| == 64 witness seq(64, _ => 0)

  function BigEndianWord(b0: byte, b1: byte, b2: byte, b3: byte): word {
    b0 * 0x1000000 + b1 * 0x10000 + b2 * 0x100 + b3
  }

  /** The message schedule W_t. */
  function Schedule(block: Block, t: nat): word
    requires t < 64
  {
    if t < 16 then BigEndianWord(block[4 * t], block[4 * t + 1], block[4 * t + 2], block[4 * t + 3])
    else
      Add(Add(Add(SmallSigma1Word(Schedule(block, t - 2)), Schedule(block, t - 7)), SmallSigma0Word(Schedule(block, t - 15))),
          Schedule(block, t - 16))
  }

  function Round(v: Words, k: word, w: word): Words {
    var t1 := Add(Add(Add(Add(v.h, BigSigma1Word(v.e)), ChWord(v.e, v.f, v.g)), k), w);
    var t2 := Add(BigSigma0Word(v.a), MajWord(v.a, v.b, v.c));
    Words(Add(t1, t2), v.a, v.b, v.c, Add(v.d, t1), v.e, v.f, v.g)
  }

  /** The working variables after the first `t` rounds. */
  function Rounds(v: Words, block: Block, t: nat): Words
    requires t <= 64
  {
    if t == 0 then v
    else Round(Rounds(v, block, t - 1), K(t - 1), Schedule(block, t - 1))
  }

  function AddWords(x: Words, y: Words): Words {
    Words(Add(x.a, y.a), Add(x.b, y.b), Add(x.c, y.c), Add(x.d, y.d),
          Add(x.e, y.e), Add(x.f, y.f), Add(x.g, y.g), Add(x.h, y.h))
  }

  function Compress(hash: Words, block: Block): Words {
    AddWords(hash, Rounds(hash, block, 64))
  }

  /** The hash value after the first `n` blocks of `bytes`. */
  function HashBlocks(bytes: seq<byte>, n: nat): Words
    requires 64 * n <= |bytes|
  {
    if n == 0 then H0
    else Compress(HashBlocks(bytes, n - 1), bytes[64 * n - 64..64 * n])
  }

  // ---------- section 5.1.1: padding ----------

  function Zeros(n: nat): (z: seq<byte>)
    ensures |z| == n
  {
    seq(n, _ => 0)
  }

  function Power256(n: nat): (p: nat)
    ensures p > 0
  {
    if n == 0 then 1 else 256 * Power256(n - 1)
  }

  /** The `n` low bytes of `x`, most significant first. */
  function BigEndian(x: nat, n: nat): (b: seq<byte>)
    ensures |b| == n
  {
    if n == 0 then [] else BigEndian(x / 256, n - 1) + [x % 256]
  }

  /** The message, one set bit, the fewest zeros that fit, and the length in bits on eight bytes. */
  function Pad(message: seq<byte>): seq<byte> {
    message + [0x80] + Zeros((119 - |message| % 64) % 64) + BigEndian(8 * |message|, 8)
  }

  function HashMessage(message: seq<byte>): Words {
    HashBlocks(Pad(message), |Pad(message)| / 64)
  }

  function WordBytes(x: word): seq<byte> {
    [x / 0x1000000, x / 0x10000 % 0x100, x / 0x100 % 0x100, x % 0x100]
  }

  function Digest(hash: Words): (d: seq<byte>)
    ensures |d| == 32
  {
    WordBytes(hash.a) + WordBytes(hash.b) + WordBytes(hash.c) + WordBytes(hash.d)
    + WordBytes(hash.e) + WordBytes(hash.f) + WordBytes(hash.g) + WordBytes(hash.h)
  }

  /** The message digest of a message of fewer than 2^61 bytes. */
  function Sha256(message: seq<byte>): (d: seq<byte>)
    ensures |d| == 32
  {
    Digest(HashMessage(message))
  }
}
