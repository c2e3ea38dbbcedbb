/** What encoding and decoding mean, and that they undo each other. */
module Base64Theorems {
  import opened Base64
  import opened Wrappers

  // ---------- what encoding and decoding mean ----------

  predicate Bit(v: byte, mask: byte) {
    v & mask != 0
  }

  /** The bits of a byte, and those of a value below 64, most significant first. */
  function Bits8(v: byte): (b: seq<bool>)
    ensures |b| == 8
  {
    [Bit(v, 128), Bit(v, 64), Bit(v, 32), Bit(v, 16), Bit(v, 8), Bit(v, 4), Bit(v, 2), Bit(v, 1)]
  }

  function Bits6(v: byte): (b: seq<bool>)
    ensures |b| == 6
  {
    [Bit(v, 32), Bit(v, 16), Bit(v, 8), Bit(v, 4), Bit(v, 2), Bit(v, 1)]
  }

  function DataBits(data: seq<byte>): seq<bool> {
    if data == [] then [] else Bits8(data[0]) + DataBits(data[1..])
  }

  function TextBits(text: seq<byte>): seq<bool> {
    if text == [] then [] else Bits6(DecodeChar(text[0])) + TextBits(text[1..])
  }

  // ---------- the bits of a group ----------

  // A byte made of the bits of one value from number 0, 2 or 4 on, and of the first bits of the next.

  lemma Straddle0(p0: bool, p1: bool, p2: bool, p3: bool, p4: bool, p5: bool,
                   q0: bool, q1: bool, q2: bool, q3: bool, q4: bool, q5: bool)
    ensures [p0, p1, p2, p3, p4, p5, q0, q1] == [p0, p1, p2, p3, p4, p5][0..] + [q0, q1, q2, q3, q4, q5][..2]
  {
  }

  lemma Byte0Bits(w: byte, x: byte)
    requires w < 64 && x < 64
    ensures Bit(Byte0(w, x), 128) == Bit(w, 32) && Bit(Byte0(w, x), 64) == Bit(w, 16) && Bit(Byte0(w, x), 32) == Bit(w, 8) && Bit(Byte0(w, x), 16) == Bit(w, 4)
    ensures Bit(Byte0(w, x), 8) == Bit(w, 2) && Bit(Byte0(w, x), 4) == Bit(w, 1) && Bit(Byte0(w, x), 2) == Bit(x, 32) && Bit(Byte0(w, x), 1) == Bit(x, 16)
  {
  }

  lemma Byte0Straddles(w: byte, x: byte)
    requires w < 64 && x < 64
    ensures Bits8(Byte0(w, x)) == Bits6(w)[0..] + Bits6(x)[..2]
  {
    Byte0Bits(w, x);
    hide Bit, Byte0, Byte1, Byte2;
    Straddle0(Bit(w, 32), Bit(w, 16), Bit(w, 8), Bit(w, 4), Bit(w, 2), Bit(w, 1), Bit(x, 32), Bit(x, 16), Bit(x, 8), Bit(x, 4), Bit(x, 2), Bit(x, 1));
  }

  lemma Straddle2(p0: bool, p1: bool, p2: bool, p3: bool, p4: bool, p5: bool,
                   q0: bool, q1: bool, q2: bool, q3: bool, q4: bool, q5: bool)
    ensures [p2, p3, p4, p5, q0, q1, q2, q3] == [p0, p1, p2, p3, p4, p5][2..] + [q0, q1, q2, q3, q4, q5][..4]
  {
  }

  lemma Byte1Bits(x: byte, y: byte)
    requires x < 64 && y < 64
    ensures Bit(Byte1(x, y), 128) == Bit(x, 8) && Bit(Byte1(x, y), 64) == Bit(x, 4) && Bit(Byte1(x, y), 32) == Bit(x, 2) && Bit(Byte1(x, y), 16) == Bit(x, 1)
    ensures Bit(Byte1(x, y), 8) == Bit(y, 32) && Bit(Byte1(x, y), 4) == Bit(y, 16) && Bit(Byte1(x, y), 2) == Bit(y, 8) && Bit(Byte1(x, y), 1) == Bit(y, 4)
  {
  }

  lemma Byte1Straddles(x: byte, y: byte)
    requires x < 64 && y < 64
    ensures Bits8(Byte1(x, y)) == Bits6(x)[2..] + Bits6(y)[..4]
  {
    Byte1Bits(x, y);
    hide Bit, Byte0, Byte1, Byte2;
    Straddle2(Bit(x, 32), Bit(x, 16), Bit(x, 8), Bit(x, 4), Bit(x, 2), Bit(x, 1), Bit(y, 32), Bit(y, 16), Bit(y, 8), Bit(y, 4), Bit(y, 2), Bit(y, 1));
  }

  lemma Straddle4(p0: bool, p1: bool, p2: bool, p3: bool, p4: bool, p5: bool,
                   q0: bool, q1: bool, q2: bool, q3: bool, q4: bool, q5: bool)
    ensures [p4, p5, q0, q1, q2, q3, q4, q5] == [p0, p1, p2, p3, p4, p5][4..] + [q0, q1, q2, q3, q4, q5][..6]
  {
  }

  lemma Byte2Bits(y: byte, z: byte)
    requires y < 64 && z < 64
    ensures Bit(Byte2(y, z), 128) == Bit(y, 2) && Bit(Byte2(y, z), 64) == Bit(y, 1) && Bit(Byte2(y, z), 32) == Bit(z, 32) && Bit(Byte2(y, z), 16) == Bit(z, 16)
    ensures Bit(Byte2(y, z), 8) == Bit(z, 8) && Bit(Byte2(y, z), 4) == Bit(z, 4) && Bit(Byte2(y, z), 2) == Bit(z, 2) && Bit(Byte2(y, z), 1) == Bit(z, 1)
  {
  }

  lemma Byte2Straddles(y: byte, z: byte)
    requires y < 64 && z < 64
    ensures Bits8(Byte2(y, z)) == Bits6(y)[4..] + Bits6(z)[..6]
  {
    Byte2Bits(y, z);
    hide Bit, Byte0, Byte1, Byte2;
    Straddle4(Bit(y, 32), Bit(y, 16), Bit(y, 8), Bit(y, 4), Bit(y, 2), Bit(y, 1), Bit(z, 32), Bit(z, 16), Bit(z, 8), Bit(z, 4), Bit(z, 2), Bit(z, 1));
  }

  lemma Regroup(w: seq<bool>, x: seq<bool>, y: seq<bool>, z: seq<bool>)
    requires |x| >= 2 && |y| >= 4
    ensures (w + x[..2]) + (x[2..] + y[..4]) + (y[4..] + z) == w + x + y + z
  {
  }

  /** The bits of four values, read as three bytes. */
  lemma GroupBits(w: byte, x: byte, y: byte, z: byte)
    requires w < 64 && x < 64 && y < 64 && z < 64
    ensures Bits8(Byte0(w, x)) + Bits8(Byte1(x, y)) + Bits8(Byte2(y, z)) == Bits6(w) + Bits6(x) + Bits6(y) + Bits6(z)
  {
    hide Byte0, Byte1, Byte2, Bits6, Bits8;
    Byte0Straddles(w, x);
    Byte1Straddles(x, y);
    Byte2Straddles(y, z);
    var p, q, r, s := Bits6(w), Bits6(x), Bits6(y), Bits6(z);
    assert p[0..] == p && s[..6] == s;
    Regroup(p, q, r, s);
  }

  // ---------- decoding, bit by bit ----------

  lemma TextBitsCons(c: byte, rest: seq<byte>)
    ensures TextBits([c] + rest) == Bits6(DecodeChar(c)) + TextBits(rest)
  {
    assert ([c] + rest)[1..] == rest;
  }

  lemma TextBits4(w: byte, x: byte, y: byte, z: byte, rest: seq<byte>)
    ensures TextBits([w, x, y, z] + rest) ==
      Bits6(DecodeChar(w)) + (Bits6(DecodeChar(x)) + (Bits6(DecodeChar(y)) + (Bits6(DecodeChar(z)) + TextBits(rest))))
  {
    TextBitsCons(w, [x, y, z] + rest);
    TextBitsCons(x, [y, z] + rest);
    TextBitsCons(y, [z] + rest);
    TextBitsCons(z, rest);
    hide Bits6, DecodeChar, TextBits;
    Cons4(w, x, y, z, rest);
    Cons3(x, y, z, rest);
  }

  lemma Cons4<T>(w: T, x: T, y: T, z: T, rest: seq<T>)
    ensures [w, x, y, z] + rest == [w] + ([x, y, z] + rest)
  {
  }

  lemma Cons3<T>(x: T, y: T, z: T, rest: seq<T>)
    ensures [x, y, z] + rest == [x] + ([y, z] + rest)
    ensures [y, z] + rest == [y] + ([z] + rest)
  {
  }

  lemma DataBitsCons(c: byte, rest: seq<byte>)
    ensures DataBits([c] + rest) == Bits8(c) + DataBits(rest)
  {
    assert ([c] + rest)[1..] == rest;
  }

  lemma DataBits3(a: byte, b: byte, c: byte, rest: seq<byte>)
    ensures DataBits([a, b, c] + rest) == Bits8(a) + (Bits8(b) + (Bits8(c) + DataBits(rest)))
  {
    DataBitsCons(a, [b, c] + rest);
    DataBitsCons(b, [c] + rest);
    DataBitsCons(c, rest);
    hide Bits8, DataBits;
    Cons3(a, b, c, rest);
  }

  lemma Associate3(a: seq<bool>, b: seq<bool>, c: seq<bool>, d: seq<bool>)
    ensures a + (b + (c + d)) == a + b + c + d
  {
  }

  lemma Associate4(a: seq<bool>, b: seq<bool>, c: seq<bool>, d: seq<bool>, e: seq<bool>)
    ensures a + (b + (c + (d + e))) == a + b + c + d + e
  {
  }

  lemma GroupStep(p: byte, q: byte, r: byte, t: byte, text: seq<byte>, data: seq<byte>)
    requires InAlphabet(p) && InAlphabet(q) && InAlphabet(r) && InAlphabet(t)
    ensures var w, x, y, z := DecodeChar(p), DecodeChar(q), DecodeChar(r), DecodeChar(t);
            var front := Bits6(w) + Bits6(x) + Bits6(y) + Bits6(z);
            && TextBits([p, q, r, t] + text) == front + TextBits(text)
            && DataBits([Byte0(w, x), Byte1(x, y), Byte2(y, z)] + data) == front + DataBits(data)
  {
    var w, x, y, z := DecodeChar(p), DecodeChar(q), DecodeChar(r), DecodeChar(t);
    TablesInvert(0, p);
    TablesInvert(0, q);
    TablesInvert(0, r);
    TablesInvert(0, t);
    hide DecodeChar, Byte0, Byte1, Byte2, Bits6, Bits8, TextBits, DataBits;
    TextBits4(p, q, r, t, text);
    DataBits3(Byte0(w, x), Byte1(x, y), Byte2(y, z), data);
    GroupBits(w, x, y, z);
    Associate3(Bits8(Byte0(w, x)), Bits8(Byte1(x, y)), Bits8(Byte2(y, z)), DataBits(data));
    Associate4(Bits6(w), Bits6(x), Bits6(y), Bits6(z), TextBits(text));
  }

  lemma TextBitsTail(text: seq<byte>)
    requires 0 < |text| < 4
    ensures |text| == 3 ==> TextBits(text) == Bits6(DecodeChar(text[0])) + (Bits6(DecodeChar(text[1])) + Bits6(DecodeChar(text[2])))
    ensures |text| == 2 ==> TextBits(text) == Bits6(DecodeChar(text[0])) + Bits6(DecodeChar(text[1]))
  {
    hide Bits6, DecodeChar;
    var last := text[|text| - 1..];
    assert TextBits(last) == Bits6(DecodeChar(last[0])) by {
      assert last[1..] == [];
    }
    if |text| == 3 {
      assert text[1..][1..] == text[2..];
    }
  }

  lemma TailPrefix(p: seq<bool>, q: seq<bool>, r: seq<bool>)
    requires |p| == |q| == |r| == 6
    ensures p + q[..2] == (p + q)[..8]
    ensures (p + q[..2]) + (q[2..] + r[..4]) == (p + (q + r))[..16]
  {
  }

  /** Two characters hold one byte and four bits over, three hold two bytes and two bits over. */
  lemma TailBits(text: seq<byte>)
    requires |text| < 4 && DecodeGroups(text).Some?
    ensures var data := DecodeGroups(text).value;
            && |data| == 3 * |text| / 4 && |DataBits(data)| == 8 * |data| && |TextBits(text)| == 6 * |text|
            && DataBits(data) == TextBits(text)[..8 * |data|]
  {
    if |text| > 0 {
      assert text[0] in text && text[1] in text;
      var w, x := DecodeChar(text[0]), DecodeChar(text[1]);
      TablesInvert(0, text[0]);
      TablesInvert(0, text[1]);
      TextBitsTail(text);
      Byte0Straddles(w, x);
      assert Bits6(w)[0..] == Bits6(w);
      if |text| == 3 {
        assert text[2] in text;
        TablesInvert(0, text[2]);
        Byte1Straddles(x, DecodeChar(text[2]));
        TwoBytes(Byte0(w, x), Byte1(x, DecodeChar(text[2])));
        TailPrefix(Bits6(w), Bits6(x), Bits6(DecodeChar(text[2])));
      } else {
        OneByte(Byte0(w, x));
        TailPrefix(Bits6(w), Bits6(x), Bits6(x));
      }
      hide Byte0, Byte1, Bits6, Bits8, DecodeChar, TextBits, DataBits;
    }
  }

  lemma OneByte(a: byte)
    ensures DataBits([a]) == Bits8(a)
  {
    hide Bits8;
    assert [a][1..] == [];
  }

  lemma TwoBytes(a: byte, b: byte)
    ensures DataBits([a, b]) == Bits8(a) + Bits8(b)
  {
    hide Bits8;
    assert [a, b][1..] == [b];
    OneByte(b);
  }

  lemma PrefixOfSum(front: seq<bool>, text: seq<bool>, data: seq<bool>)
    requires |data| <= |text| && data == text[..|data|]
    ensures front + data == (front + text)[..|front| + |data|]
  {
  }

  /** The bits of the bytes are the first bits of the text; fewer than eight are left over. */
  lemma {:induction false} DecodeBits(text: seq<byte>)
    requires DecodeGroups(text).Some?
    ensures var data := DecodeGroups(text).value;
            && |data| == 3 * |text| / 4 && |DataBits(data)| == 8 * |data| && |TextBits(text)| == 6 * |text|
            && DataBits(data) == TextBits(text)[..8 * |data|]
    decreases |text|
  {
    hide Byte0, Byte1, Byte2, Bits6, Bits8;
    if |text| >= 4 {
      DecodeBits(text[4..]);
      var rest, data := DecodeGroups(text[4..]).value, DecodeGroups(text).value;
      assert text == [text[0], text[1], text[2], text[3]] + text[4..];
      assert AllInAlphabet(text[..4]) && text[0] in text[..4] && text[1] in text[..4] && text[2] in text[..4] && text[3] in text[..4] by {
        assert text[..4] == [text[0], text[1], text[2], text[3]];
      }
      GroupStep(text[0], text[1], text[2], text[3], text[4..], rest);
      var front := Bits6(DecodeChar(text[0])) + Bits6(DecodeChar(text[1])) + Bits6(DecodeChar(text[2])) + Bits6(DecodeChar(text[3]));
      hide DecodeGroups, TextBits, DataBits, DecodeChar;
      PrefixOfSum(front, TextBits(text[4..]), DataBits(rest));
    } else {
      TailBits(text);
    }
  }

  // ---------- which texts are accepted ----------

  /** Decoding succeeds exactly on the characters of the table, in any number but one over a multiple of four. */
  lemma {:induction false} GroupsAccepted(text: seq<byte>)
    ensures DecodeGroups(text).Some? <==> |text| % 4 != 1 && AllInAlphabet(text)
    decreases |text|
  {
    hide AllInAlphabet, DecodeChar, Byte0, Byte1, Byte2;
    if |text| >= 4 {
      GroupAccepted(text);
      hide DecodeGroups;
      GroupsAccepted(text[4..]);
      AlphabetSplit(text);
    }
  }

  lemma GroupAccepted(text: seq<byte>)
    requires |text| >= 4
    ensures DecodeGroups(text).Some? <==> AllInAlphabet(text[..4]) && DecodeGroups(text[4..]).Some?
  {
    hide AllInAlphabet, DecodeChar, Byte0, Byte1, Byte2;
  }

  lemma AlphabetSplit(text: seq<byte>)
    requires |text| >= 4
    ensures AllInAlphabet(text) <==> AllInAlphabet(text[..4]) && AllInAlphabet(text[4..])
  {
    hide InAlphabet;
    assert text == text[..4] + text[4..];
    assert forall c :: c in text <==> c in text[..4] || c in text[4..];
  }

  lemma {:induction false} Accepted(text: seq<byte>)
    ensures var unpadded := Unpad(Strip(text));
            && (Decode(text).Some? <==> |unpadded| % 4 != 1 && AllInAlphabet(unpadded))
            && (Decode(text).Some? ==> |Decode(text).value| == 3 * |unpadded| / 4)
  {
    GroupsAccepted(Unpad(Strip(text)));
    if Decode(text).Some? {
      DecodeBits(Unpad(Strip(text)));
    }
  }

  // ---------- white space ----------

  predicate NoWhitespace(text: seq<byte>) {
    forall c :: c in text ==> !IsWhitespace(c)
  }

  lemma {:induction false} StripKeeps(text: seq<byte>)
    requires NoWhitespace(text)
    ensures Strip(text) == text
    decreases |text|
  {
    if text != [] {
      assert forall c :: c in text[..|text| - 1] ==> c in text;
      StripKeeps(text[..|text| - 1]);
      assert text[|text| - 1] in text;
    }
  }

  lemma {:induction false} StripLeavesNone(text: seq<byte>)
    ensures NoWhitespace(Strip(text)) && forall c :: c in Strip(text) ==> c in text
    ensures |Strip(text)| <= |text| && (Strip(text) == text ==> NoWhitespace(text))
    decreases |text|
  {
    if text != [] {
      StripLeavesNone(text[..|text| - 1]);
    }
  }

  /** White space anywhere in the text makes no difference. */
  lemma {:induction false} WhitespaceIgnored(text: seq<byte>)
    ensures Decode(text) == Decode(Strip(text))
  {
    StripLeavesNone(text);
    StripKeeps(Strip(text));
  }

  // ---------- decoding undoes encoding ----------

  lemma EncodedChar(v: byte)
    requires v < 64
    ensures var c := EncodeChar(v); InAlphabet(c) && !IsWhitespace(c) && c != 95 && c != PAD && DecodeChar(c) == v
  {
  }

  lemma SplitJoin(a: byte, b: byte, c: byte, b32: bv32)
    requires b32 == Join3to4(a, b, c)
    ensures var w, x, y, z := ((b32 >> 18) & 0x3f) as byte, ((b32 >> 12) & 0x3f) as byte, ((b32 >> 6) & 0x3f) as byte, (b32 & 0x3f) as byte;
            && w < 64 && x < 64 && y < 64 && z < 64
            && Byte0(w, x) == a && Byte1(x, y) == b && Byte2(y, z) == c
  {
  }

  /** A group of four characters of the table without '_', and the bytes it stands for. */
  predicate Group(g: seq<byte>, w: byte, x: byte, y: byte, z: byte) {
    && w < 64 && x < 64 && y < 64 && z < 64
    && g == [EncodeChar(w), EncodeChar(x), EncodeChar(y), EncodeChar(z)]
  }

  lemma Encode3Group(a: byte, b: byte, c: byte) returns (w: byte, x: byte, y: byte, z: byte)
    ensures Group(Encode3to4(a, b, c), w, x, y, z)
    ensures Byte0(w, x) == a && Byte1(x, y) == b && Byte2(y, z) == c
  {
    var b32 := Join3to4(a, b, c);
    w, x, y, z := ((b32 >> 18) & 0x3f) as byte, ((b32 >> 12) & 0x3f) as byte, ((b32 >> 6) & 0x3f) as byte, (b32 & 0x3f) as byte;
    SplitJoin(a, b, c, b32);
    hide Byte0, Byte1, Byte2, EncodeChar, Join3to4;
  }

  lemma GroupChars(g: seq<byte>, w: byte, x: byte, y: byte, z: byte)
    requires Group(g, w, x, y, z)
    ensures AllInAlphabet(g) && NoWhitespace(g) && 95 !in g && PAD !in g
    ensures DecodeChar(g[0]) == w && DecodeChar(g[1]) == x && DecodeChar(g[2]) == y && DecodeChar(g[3]) == z
  {
    EncodedChar(w);
    EncodedChar(x);
    EncodedChar(y);
    EncodedChar(z);
    hide EncodeChar, DecodeChar, InAlphabet, IsWhitespace;
    forall c | c in g
      ensures InAlphabet(c) && !IsWhitespace(c) && c != 95 && c != PAD
    {
      assert c == g[0] || c == g[1] || c == g[2] || c == g[3];
    }
  }

  lemma DecodeCons(g: seq<byte>, w: byte, x: byte, y: byte, z: byte, rest: seq<byte>)
    requires Group(g, w, x, y, z)
    ensures DecodeGroups(g + rest).Some? <==> DecodeGroups(rest).Some?
    ensures DecodeGroups(rest).Some? ==> DecodeGroups(g + rest).value == [Byte0(w, x), Byte1(x, y), Byte2(y, z)] + DecodeGroups(rest).value
  {
    GroupChars(g, w, x, y, z);
    hide EncodeChar, DecodeChar, AllInAlphabet, Byte0, Byte1, Byte2;
    assert (g + rest)[..4] == g && (g + rest)[4..] == rest;
  }

  lemma UnpadCons(g: seq<byte>, rest: seq<byte>)
    requires |g| == 4 && |rest| % 4 == 0 && rest != []
    ensures Unpad(g + rest) == g + Unpad(rest)
  {
    var t := g + rest;
    assert |t| % 4 == 0 && t[|t| - 1] == rest[|rest| - 1] && t[|t| - 2] == rest[|rest| - 2];
  }

  lemma UnpadNothing(g: seq<byte>)
    requires |g| == 4 && PAD !in g
    ensures Unpad(g) == g
  {
    assert g[3] in g;
  }

  /** The two and three characters that one and two bytes are encoded to, without padding. */
  lemma EncodeTail(a: byte, b: byte)
    ensures var t := Encode2to4(a, b);
            && AllInAlphabet(t[..3]) && NoWhitespace(t) && 95 !in t && Unpad(t) == t[..3]
            && DecodeGroups(t[..3]) == Some([a, b]) && DecodeChar(t[2]) & 3 == 0
    ensures var t := Encode1to4(a);
            && AllInAlphabet(t[..2]) && NoWhitespace(t) && 95 !in t && Unpad(t) == t[..2]
            && DecodeGroups(t[..2]) == Some([a]) && DecodeChar(t[1]) & 15 == 0
  {
    var v0, v1, v2, u1 := (a >> 2) & 0x3f, ((a & 0x03) << 4) | ((b >> 4) & 0x0f), (b & 0x0f) << 2, (a & 0x03) << 4;
    TailBytes(a, b);
    EncodedChar(v0);
    EncodedChar(v1);
    EncodedChar(v2);
    EncodedChar(u1);
    hide EncodeChar, DecodeChar, InAlphabet, IsWhitespace, Byte0, Byte1;
    assert !IsWhitespace(PAD) by {
      PadIsNoSpace();
    }
    assert Encode2to4(a, b) == [EncodeChar(v0), EncodeChar(v1), EncodeChar(v2), PAD];
    assert Encode1to4(a) == [EncodeChar(v0), EncodeChar(u1), PAD, PAD];
    assert Encode2to4(a, b)[..3] == [EncodeChar(v0), EncodeChar(v1), EncodeChar(v2)];
    assert Encode1to4(a)[..2] == [EncodeChar(v0), EncodeChar(u1)];
  }

  lemma PadIsNoSpace()
    ensures !IsWhitespace(PAD) && PAD != 95
  {
  }

  lemma TailBytes(a: byte, b: byte)
    ensures var v0, v1, v2, u1 := (a >> 2) & 0x3f, ((a & 0x03) << 4) | ((b >> 4) & 0x0f), (b & 0x0f) << 2, (a & 0x03) << 4;
            && v0 < 64 && v1 < 64 && v2 < 64 && u1 < 64 && v2 & 3 == 0 && u1 & 15 == 0
            && Byte0(v0, v1) == a && Byte1(v1, v2) == b && Byte0(v0, u1) == a
  {
  }

  predicate TrailingZeros(text: seq<byte>) {
    && (|text| % 4 == 3 ==> DecodeChar(text[|text| - 1]) & 3 == 0)
    && (|text| % 4 == 2 ==> DecodeChar(text[|text| - 1]) & 15 == 0)
  }

  /** Full groups, no white space, no '_', and no bits but zeros after the last whole byte. */
  predicate Canonical(text: seq<byte>) {
    && |text| % 4 == 0
    && NoWhitespace(text)
    && 95 !in text
    && AllInAlphabet(Unpad(text))
    && TrailingZeros(Unpad(text))
  }

  /** A group before a text: it is never touched by the padding. */
  lemma UnpadGroup(g: seq<byte>, w: byte, x: byte, y: byte, z: byte, rest: seq<byte>)
    requires Group(g, w, x, y, z) && |rest| % 4 == 0
    ensures Unpad(g + rest) == g + Unpad(rest)
  {
    GroupChars(g, w, x, y, z);
    if rest != [] {
      UnpadCons(g, rest);
    } else {
      assert g + rest == g && g + Unpad(rest) == g;
      UnpadNothing(g);
    }
  }

  lemma GroupLength(g: seq<byte>, w: byte, x: byte, y: byte, z: byte)
    requires Group(g, w, x, y, z)
    ensures |g| == 4
  {
  }

  lemma CleanCons(g: seq<byte>, text: seq<byte>)
    requires AllInAlphabet(g) && NoWhitespace(g) && 95 !in g
    ensures AllInAlphabet(g + text) <==> AllInAlphabet(text)
    ensures NoWhitespace(g + text) <==> NoWhitespace(text)
    ensures 95 in g + text <==> 95 in text
  {
    hide InAlphabet, IsWhitespace;
    assert forall c :: c in g + text <==> c in g || c in text;
  }

  lemma TrailingCons(g: seq<byte>, text: seq<byte>)
    requires |g| == 4
    ensures TrailingZeros(g + text) <==> TrailingZeros(text)
  {
    hide DecodeChar;
    assert |text| > 0 ==> (g + text)[|g + text| - 1] == text[|text| - 1];
    assert |g + text| % 4 == |text| % 4;
  }

  lemma CanonicalCons(g: seq<byte>, w: byte, x: byte, y: byte, z: byte, rest: seq<byte>)
    requires Group(g, w, x, y, z) && |rest| % 4 == 0
    ensures Canonical(g + rest) <==> Canonical(rest)
  {
    GroupChars(g, w, x, y, z);
    GroupLength(g, w, x, y, z);
    hide AllInAlphabet, NoWhitespace, TrailingZeros, DecodeChar, Unpad, Group;
    UnpadGroup(g, w, x, y, z, rest);
    CleanCons(g, rest);
    CleanCons(g, Unpad(rest));
    TrailingCons(g, Unpad(rest));
  }

  predicate Inverted(text: seq<byte>, data: seq<byte>) {
    && DecodeGroups(Unpad(text)) == Some(data)
    && Canonical(text)
    && |text| == 4 * ((|data| + 2) / 3)
  }

  lemma InvertedCons(a: byte, b: byte, c: byte, rest: seq<byte>, data: seq<byte>)
    requires Inverted(rest, data)
    ensures Inverted(Encode3to4(a, b, c) + rest, [a, b, c] + data)
  {
    hide Encode3to4, DecodeGroups, Canonical, Unpad, Byte0, Byte1, Byte2, Group;
    var w, x, y, z := Encode3Group(a, b, c);
    var g := Encode3to4(a, b, c);
    assert |g| == 4 by {
      GroupLength(g, w, x, y, z);
    }
    CanonicalCons(g, w, x, y, z, rest);
    assert |rest| % 4 == 0;
    UnpadGroup(g, w, x, y, z, rest);
    DecodeCons(g, w, x, y, z, Unpad(rest));
    assert |g + rest| == 4 + |rest| && |[a, b, c] + data| == 3 + |data|;
  }

  lemma InvertedTail(a: byte, b: byte)
    ensures Inverted(Encode2to4(a, b), [a, b]) && Inverted(Encode1to4(a), [a]) && Inverted([], [])
  {
    EncodeTail(a, b);
    var two, one := Encode2to4(a, b), Encode1to4(a);
    assert |two| == |one| == 4 && two[..3][2] == two[2] && one[..2][1] == one[1];
    hide Encode2to4, Encode1to4, DecodeChar, IsWhitespace, InAlphabet;
  }

  /** Decoding the encoding of any bytes gives them back; the encoding is canonical, four characters for three bytes. */
  lemma {:induction false} GroupsRoundTrip(data: seq<byte>)
    ensures Inverted(Encode(data), data)
    decreases |data|
  {
    hide Inverted, Encode3to4, Encode2to4, Encode1to4;
    if |data| >= 3 {
      GroupsRoundTrip(data[3..]);
      InvertedCons(data[0], data[1], data[2], Encode(data[3..]), data[3..]);
      assert data == [data[0], data[1], data[2]] + data[3..];
    } else if |data| > 0 {
      InvertedTail(data[0], data[|data| - 1]);
      assert data == if |data| == 2 then [data[0], data[1]] else [data[0]];
    } else {
      InvertedTail(0, 0);
    }
  }

  /** `atob(btoa(data))` is `data`, for every byte string. */
  lemma {:induction false} RoundTrip(data: seq<byte>)
    ensures Decode(Encode(data)) == Some(data) && |Encode(data)| == 4 * ((|data| + 2) / 3)
  {
    GroupsRoundTrip(data);
    StripKeeps(Encode(data));
    GroupsAccepted(Unpad(Encode(data)));
  }

  /** The characters before the padding carry the bits of the data, in order, and fewer than eight after them. */
  lemma {:induction false} EncodeBits(data: seq<byte>)
    ensures var bits := TextBits(Unpad(Encode(data)));
            8 * |data| <= |bits| < 8 * |data| + 8 && DataBits(data) == bits[..8 * |data|]
  {
    GroupsRoundTrip(data);
    DecodeBits(Unpad(Encode(data)));
  }

  // ---------- encoding undoes decoding ----------

  lemma JoinSplit(w: byte, x: byte, y: byte, z: byte, b32: bv32)
    requires w < 64 && x < 64 && y < 64 && z < 64
    requires b32 == Join3to4(Byte0(w, x), Byte1(x, y), Byte2(y, z))
    ensures ((b32 >> 18) & 0x3f) as byte == w && ((b32 >> 12) & 0x3f) as byte == x
    ensures ((b32 >> 6) & 0x3f) as byte == y && (b32 & 0x3f) as byte == z
  {
  }

  lemma ReencodeGroup(g: seq<byte>, w: byte, x: byte, y: byte, z: byte)
    requires Group(g, w, x, y, z)
    ensures Encode3to4(Byte0(w, x), Byte1(x, y), Byte2(y, z)) == g
  {
    JoinSplit(w, x, y, z, Join3to4(Byte0(w, x), Byte1(x, y), Byte2(y, z)));
    hide EncodeChar, Join3to4, Byte0, Byte1, Byte2;
  }

  lemma IsGroup(g: seq<byte>)
    requires |g| == 4 && AllInAlphabet(g) && 95 !in g
    ensures Group(g, DecodeChar(g[0]), DecodeChar(g[1]), DecodeChar(g[2]), DecodeChar(g[3]))
  {
    forall c | c in g
      ensures DecodeChar(c) < 64 && EncodeChar(DecodeChar(c)) == c
    {
      TablesInvert(0, c);
    }
    hide EncodeChar, DecodeChar, InAlphabet;
    assert g[0] in g && g[1] in g && g[2] in g && g[3] in g;
  }

  /** The three ways a group of four can end a canonical text. */
  lemma ReencodeLast(g: seq<byte>)
    requires |g| == 4 && Canonical(g)
    ensures DecodeGroups(Unpad(g)).Some? && Encode(DecodeGroups(Unpad(g)).value) == g
  {
    var u := Unpad(g);
    GroupsAccepted(u);
    forall c | c in u
      ensures DecodeChar(c) < 64 && EncodeChar(DecodeChar(c)) == c
    {
      assert c in g;
      TablesInvert(0, c);
    }
    assert u[0] in u && u[1] in u;
    if |u| == 4 {
      IsGroup(g);
      ReencodeGroup(g, DecodeChar(g[0]), DecodeChar(g[1]), DecodeChar(g[2]), DecodeChar(g[3]));
      DecodeCons(g, DecodeChar(g[0]), DecodeChar(g[1]), DecodeChar(g[2]), DecodeChar(g[3]), []);
      assert g + [] == g;
      EncodeThree(DecodeGroups(g).value);
    } else if |u| == 3 {
      assert u[2] in u;
      ReencodeTwo(DecodeChar(u[0]), DecodeChar(u[1]), DecodeChar(u[2]));
    } else {
      ReencodeOne(DecodeChar(u[0]), DecodeChar(u[1]));
    }
  }

  lemma EncodeThree(data: seq<byte>)
    requires |data| == 3
    ensures Encode(data) == Encode3to4(data[0], data[1], data[2])
  {
    assert data[3..] == [];
  }

  lemma ReencodeTwo(w: byte, x: byte, y: byte)
    requires w < 64 && x < 64 && y < 64 && y & 3 == 0
    ensures Encode2to4(Byte0(w, x), Byte1(x, y)) == [EncodeChar(w), EncodeChar(x), EncodeChar(y), PAD]
  {
    TwoBytesSplit(w, x, y, Byte0(w, x), Byte1(x, y));
    hide EncodeChar, Byte0, Byte1;
  }

  lemma TwoBytesSplit(w: byte, x: byte, y: byte, a: byte, b: byte)
    requires w < 64 && x < 64 && y < 64 && y & 3 == 0 && a == Byte0(w, x) && b == Byte1(x, y)
    ensures (a >> 2) & 0x3f == w && ((a & 0x03) << 4) | ((b >> 4) & 0x0f) == x && (b & 0x0f) << 2 == y
  {
  }

  lemma ReencodeOne(w: byte, x: byte)
    requires w < 64 && x < 64 && x & 15 == 0
    ensures Encode1to4(Byte0(w, x)) == [EncodeChar(w), EncodeChar(x), PAD, PAD]
  {
    var a := Byte0(w, x);
    assert (a >> 2) & 0x3f == w && (a & 0x03) << 4 == x;
  }

  lemma {:induction false} Reencode(text: seq<byte>)
    requires Canonical(text)
    ensures DecodeGroups(Unpad(text)).Some? && Encode(DecodeGroups(Unpad(text)).value) == text
    decreases |text|
  {
    if |text| > 4 {
      var g, rest := text[..4], text[4..];
      assert text == g + rest;
      UnpadCons(g, rest);
      assert g == Unpad(text)[..4];
      assert AllInAlphabet(g) && 95 !in g;
      IsGroup(g);
      var w, x, y, z := DecodeChar(g[0]), DecodeChar(g[1]), DecodeChar(g[2]), DecodeChar(g[3]);
      CanonicalCons(g, w, x, y, z, rest);
      Reencode(rest);
      DecodeCons(g, w, x, y, z, Unpad(rest));
      ReencodeGroup(g, w, x, y, z);
      EncodeCons(Byte0(w, x), Byte1(x, y), Byte2(y, z), DecodeGroups(Unpad(rest)).value);
    } else if |text| == 4 {
      ReencodeLast(text);
    }
  }

  lemma EncodeCons(a: byte, b: byte, c: byte, rest: seq<byte>)
    ensures Encode([a, b, c] + rest) == Encode3to4(a, b, c) + Encode(rest)
  {
    assert ([a, b, c] + rest)[3..] == rest;
  }

  /** A text that decodes is the encoding of what it decodes to if and only if it is canonical. */
  lemma {:induction false} EncodingUndoesDecoding(text: seq<byte>)
    requires Decode(text).Some?
    ensures Encode(Decode(text).value) == text <==> Canonical(text)
  {
    GroupsRoundTrip(Decode(text).value);
    if Canonical(text) {
      StripKeeps(text);
      Reencode(text);
    }
  }

  /** A text with '_' decodes, but is no encoding: "____" decodes as "////" does. */
  lemma UnderscoreDecodes()
    ensures Decode([95, 95, 95, 95]).Some? && Encode(Decode([95, 95, 95, 95]).value) != [95, 95, 95, 95]
  {
    var text: seq<byte> := [95, 95, 95, 95];
    StripKeeps(text);
    assert Unpad(text) == text;
    assert AllInAlphabet(text);
    Accepted(text);
    assert text[0] == 95;
    EncodingUndoesDecoding(text);
  }

  // ---------- the tables by the standards ----------

  /** Eight characters of table 1 of RFC 4648. */
  function Alphabet(row: byte): (r: string)
    requires row < 8
    ensures |r| == 8
  {
    if row == 0 then "ABCDEFGH"
    else if row == 1 then "IJKLMNOP"
    else if row == 2 then "QRSTUVWX"
    else if row == 3 then "YZabcdef"
    else if row == 4 then "ghijklmn"
    else if row == 5 then "opqrstuv"
    else if row == 6 then "wxyz0123"
    else "456789+/"
  }

  /** Eight characters of the encoder's table. */
  function EncodedRow(row: byte): (r: seq<byte>)
    requires row < 8
    ensures |r| == 8
  {
    [EncodeChar(8 * row), EncodeChar(8 * row + 1), EncodeChar(8 * row + 2), EncodeChar(8 * row + 3),
     EncodeChar(8 * row + 4), EncodeChar(8 * row + 5), EncodeChar(8 * row + 6), EncodeChar(8 * row + 7)]
  }

  function AlphabetCodes(row: byte): (r: seq<byte>)
    requires row < 8
    ensures |r| == 8
  {
    if row == 0 then [65, 66, 67, 68, 69, 70, 71, 72]
    else if row == 1 then [73, 74, 75, 76, 77, 78, 79, 80]
    else if row == 2 then [81, 82, 83, 84, 85, 86, 87, 88]
    else if row == 3 then [89, 90, 97, 98, 99, 100, 101, 102]
    else if row == 4 then [103, 104, 105, 106, 107, 108, 109, 110]
    else if row == 5 then [111, 112, 113, 114, 115, 116, 117, 118]
    else if row == 6 then [119, 120, 121, 122, 48, 49, 50, 51]
    else [52, 53, 54, 55, 56, 57, 43, 47]
  }

  lemma LowCodes(row: byte, column: nat)
    requires row < 4 && column < 8
    ensures AlphabetCodes(row)[column] as int == Alphabet(row)[column] as int
  {
  }

  lemma HighCodes(row: byte, column: nat)
    requires 4 <= row < 8 && column < 8
    ensures AlphabetCodes(row)[column] as int == Alphabet(row)[column] as int
  {
  }

  lemma EncodedCodes(row: byte)
    requires row < 8
    ensures EncodedRow(row) == AlphabetCodes(row)
  {
  }

  /** The encoder's table is that of section 4 of RFC 4648. */
  lemma TableIsAlphabet(row: byte, column: nat)
    requires row < 8 && column < 8
    ensures EncodedRow(row)[column] as int == Alphabet(row)[column] as int
  {
    hide EncodedRow, AlphabetCodes, Alphabet;
    EncodedCodes(row);
    if row < 4 {
      LowCodes(row, column);
    } else {
      HighCodes(row, column);
    }
  }

  /** ASCII white space, by the Infra Standard: tab, line feed, form feed, carriage return and space. */
  const ASCII_WHITESPACE: seq<byte> := [0x09, 0x0a, 0x0c, 0x0d, 0x20]

  lemma WhitespaceIsAscii(c: byte)
    ensures IsWhitespace(c) <==> c in ASCII_WHITESPACE
  {
  }

  /** Stripping drops the white space, wherever it stands, and keeps the rest in order: it works character by character. */
  lemma {:induction false} StripJoins(a: seq<byte>, b: seq<byte>)
    ensures Strip(a + b) == Strip(a) + Strip(b)
  {
    hide IsWhitespace;
    if b == [] {
      assert a + b == a;
    } else {
      assert (a + b)[..|a + b| - 1] == a + b[..|b| - 1];
      StripJoins(a, b[..|b| - 1]);
    }
  }

  lemma StripOne(c: byte)
    ensures Strip([c]) == if c in ASCII_WHITESPACE then [] else [c]
  {
    WhitespaceIsAscii(c);
    hide IsWhitespace;
    assert [c][..0] == [];
  }

  /** The test vectors of section 10 of RFC 4648. */
  lemma TestVectors()
    ensures Encode([]) == [] && Encode([0x66]) == [0x5a, 0x67, 61, 61] && Encode([0x66, 0x6f]) == [0x5a, 0x6d, 0x38, 61]
    ensures Encode([0x66, 0x6f, 0x6f]) == [0x5a, 0x6d, 0x39, 0x76]
  {
  }
}
