/** The block function of deps/include/picosha2.h, proved to compute one step of SHA-256. */
module Sha256 {
  import opened Sha256Constants
  import opened Sha256Words
  import Std = Sha256Standard

  predicate AreWords(h: seq<nat>) {
    forall i :: 0 <= i < |h| ==> h[i] < 0x1_0000_0000
  }

  function ToWords(h: seq<nat>): Std.Words
    requires |h| == 8 && AreWords(h)
  {
    Std.Words(h[0], h[1], h[2], h[3], h[4], h[5], h[6], h[7])
  }

  lemma MaskWord(x: Std.word)
    ensures Mask32(x) == x
  {
  }

  lemma AddLow3(x: Std.word, y: Std.word, z: Std.word, u: Std.word, width: Width)
    ensures Mask32(Add(Add(Add(x, y, width), z, width), u, width)) == Std.Add(Std.Add(Std.Add(x, y), z), u)
  {
    hide Add, Std.Add, Mask32;
    MaskWord(x);
    MaskWord(y);
    MaskWord(z);
    MaskWord(u);
    AddLow(x, y, width);
    AddLow(Add(x, y, width), z, width);
    AddLow(Add(Add(x, y, width), z, width), u, width);
  }

  /** The unmasked temporaries of a round give the masked words of the standard's round. */
  lemma RoundAgrees(v: Std.Words, k: Std.word, w: Std.word, temp1: nat, temp2: nat, width: Width)
    requires temp1 == Add(Add(Add(Add(v.h, Std.BigSigma1Word(v.e), width),
                                  Std.ChWord(v.e, v.f, v.g), width), k, width), w, width)
    requires temp2 == Add(Std.BigSigma0Word(v.a), Std.MajWord(v.a, v.b, v.c), width)
    ensures Std.Words(Mask32(Add(temp1, temp2, width)), v.a, v.b, v.c, Mask32(Add(v.d, temp1, width)), v.e, v.f, v.g) == Std.Round(v, k, w)
  {
    hide Add, Std.Add, Mask32, Std.ChWord, Std.MajWord, Std.BigSigma0Word, Std.BigSigma1Word;
    var s1 := Std.BigSigma1Word(v.e);
    var c := Std.ChWord(v.e, v.f, v.g);
    var h3 := Add(Add(Add(v.h, s1, width), c, width), k, width);
    AddLow3(v.h, s1, c, k, width);
    MaskWord(w);
    MaskWord(v.d);
    MaskWord(Std.BigSigma0Word(v.a));
    MaskWord(Std.MajWord(v.a, v.b, v.c));
    AddLow(h3, w, width);
    AddLow(Std.BigSigma0Word(v.a), Std.MajWord(v.a, v.b, v.c), width);
    AddLow(temp1, temp2, width);
    AddLow(v.d, temp1, width);
  }

  method ExpandBlock(block: seq<Std.byte>, width: Width) returns (w: array<nat>)
    requires |block| == 64
    ensures fresh(w) && w.Length == 64
    ensures forall t :: 0 <= t < 64 ==> w[t] == Std.Schedule(block, t)
  {
    hide Add, Std.Add, Mask32, JoinedWord, SSig0Word, SSig1Word, Std.SmallSigma0Word, Std.SmallSigma1Word;
    w := new nat[64](_ => 0);
    for i := 0 to 16
      invariant forall t :: 0 <= t < i ==> w[t] == Std.Schedule(block, t)
    {
      w[i] := JoinedWord(block[4 * i], block[4 * i + 1], block[4 * i + 2], block[4 * i + 3], width);
    }
    for i := 16 to 64
      invariant forall t :: 0 <= t < i ==> w[t] == Std.Schedule(block, t)
    {
      var s1: Std.word := SSig1Word(w[i - 2], width);
      var s0: Std.word := SSig0Word(w[i - 15], width);
      AddLow3(s1, w[i - 7], s0, w[i - 16], width);
      w[i] := Mask32(Add(Add(Add(s1, w[i - 7], width), s0, width), w[i - 16], width));
    }
  }

  method Hash256Block(digest: array<nat>, block: seq<Std.byte>, width: Width)
    requires digest.Length == 8 && AreWords(digest[..]) && |block| == 64
    modifies digest
    ensures AreWords(digest[..])
    ensures ToWords(digest[..]) == Std.Compress(ToWords(old(digest[..])), block)
  {
    hide Add, Std.Add, Mask32, Std.Schedule, Std.Round, AddConstant, Std.K;
    hide ChWord, MajWord, BSig0Word, BSig1Word, Std.ChWord, Std.MajWord, Std.BigSigma0Word, Std.BigSigma1Word;
    var w := ExpandBlock(block, width);
    ghost var start := ToWords(digest[..]);
    var a: Std.word, b: Std.word, c: Std.word, d: Std.word := digest[0], digest[1], digest[2], digest[3];
    var e: Std.word, f: Std.word, g: Std.word, h: Std.word := digest[4], digest[5], digest[6], digest[7];
    for i := 0 to 64
      invariant Std.Words(a, b, c, d, e, f, g, h) == Std.Rounds(start, block, i)
      invariant digest[..] == old(digest[..])
      invariant forall t :: 0 <= t < 64 ==> w[t] == Std.Schedule(block, t)
    {
      ghost var v := Std.Words(a, b, c, d, e, f, g, h);
      var s1: Std.word := BSig1Word(e, width);
      var choice: Std.word := ChWord(e, f, g, width);
      var temp1 := Add(Add(Add(Add(h, s1, width), choice, width), AddConstant(i), width), w[i], width);
      TableIsStandard(i);
      var s0: Std.word := BSig0Word(a, width);
      var temp2 := Add(s0, MajWord(a, b, c), width);
      RoundAgrees(v, Std.K(i), w[i], temp1, temp2, width);
      h := g;
      g := f;
      f := e;
      e := Mask32(Add(d, temp1, width));
      d := c;
      c := b;
      b := a;
      a := Mask32(Add(temp1, temp2, width));
    }
    AddDigest(digest, Std.Words(a, b, c, d, e, f, g, h), width);
  }

  lemma AddLowWord(x: Std.word, y: Std.word, width: Width)
    ensures Mask32(Add(x, y, width)) == Std.Add(x, y)
  {
    hide Add, Std.Add, Mask32;
    MaskWord(x);
    MaskWord(y);
    AddLow(x, y, width);
  }

  /** The end of the block function: eight unmasked additions, then a loop that masks the eight words. */
  method AddDigest(digest: array<nat>, v: Std.Words, width: Width)
    requires digest.Length == 8 && AreWords(digest[..])
    modifies digest
    ensures AreWords(digest[..])
    ensures ToWords(digest[..]) == Std.AddWords(ToWords(old(digest[..])), v)
  {
    hide Add, Std.Add, Mask32;
    ghost var start := digest[..];
    ghost var added: seq<Std.word> := [v.a, v.b, v.c, v.d, v.e, v.f, v.g, v.h];
    AddEach(digest, v, width);
    for i := 0 to 8
      invariant forall j :: 0 <= j < i ==> digest[j] == Std.Add(start[j], added[j])
      invariant forall j :: i <= j < 8 ==> digest[j] == Add(start[j], added[j], width)
    {
      AddLowWord(start[i], added[i], width);
      digest[i] := Mask32(digest[i]);
    }
    assert ToWords(digest[..]) == Std.AddWords(ToWords(start), v);
  }

  method AddEach(digest: array<nat>, v: Std.Words, width: Width)
    requires digest.Length == 8
    modifies digest
    ensures digest[0] == Add(old(digest[0]), v.a, width) && digest[1] == Add(old(digest[1]), v.b, width)
    ensures digest[2] == Add(old(digest[2]), v.c, width) && digest[3] == Add(old(digest[3]), v.d, width)
    ensures digest[4] == Add(old(digest[4]), v.e, width) && digest[5] == Add(old(digest[5]), v.f, width)
    ensures digest[6] == Add(old(digest[6]), v.g, width) && digest[7] == Add(old(digest[7]), v.h, width)
  {
    hide Add;
    digest[0] := Add(digest[0], v.a, width);
    digest[1] := Add(digest[1], v.b, width);
    digest[2] := Add(digest[2], v.c, width);
    digest[3] := Add(digest[3], v.d, width);
    digest[4] := Add(digest[4], v.e, width);
    digest[5] := Add(digest[5], v.f, width);
    digest[6] := Add(digest[6], v.g, width);
    digest[7] := Add(digest[7], v.h, width);
  }
}
