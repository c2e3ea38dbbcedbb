/**
  The encoder and the forgiving decoder of builtins/web/base64.cpp: section 4 of RFC 4648 and the
  forgiving-base64 decode of the Infra Standard. Text and data are both sequences of bytes.
*/
module Base64 {
  import opened Wrappers

  type byte = bv8

  const NON_ALPHABET: byte := 255
  const PAD: byte := 61

  // ---------- the alphabet ----------

  /** `base64EncodeTable`: A-Z, a-z, 0-9, '+' and '/'. */
  function EncodeChar(v: byte): byte {
    if v < 26 then v + 65
    else if v < 52 then v + 71
    else if v < 62 then v - 4
    else if v == 62 then 43
    else 47
  }

  /** `base64DecodeTable`, which takes '_' for 63 as well as '/'. */
  function DecodeChar(c: byte): byte {
    if 65 <= c <= 90 then c - 65
    else if 97 <= c <= 122 then c - 71
    else if 48 <= c <= 57 then c + 4
    else if c == 43 then 62
    else if c == 47 || c == 95 then 63
    else NON_ALPHABET
  }

  predicate InAlphabet(c: byte) {
    DecodeChar(c) != NON_ALPHABET
  }

  /** The tables are inverse to each other, but for '_'. */
  lemma TablesInvert(v: byte, c: byte)
    ensures v < 64 ==> DecodeChar(EncodeChar(v)) == v && EncodeChar(v) != 95 && EncodeChar(v) != PAD
    ensures InAlphabet(c) ==> DecodeChar(c) < 64 && c < 128 && c != PAD
    ensures InAlphabet(c) ==> (EncodeChar(DecodeChar(c)) == c <==> c != 95)
  {
  }

  // ---------- groups ----------

  function Join3to4(a: byte, b: byte, c: byte): bv32 {
    (a as bv32 << 16) | (b as bv32 << 8) | (c as bv32)
  }

  function Encode3to4(a: byte, b: byte, c: byte): seq<byte> {
    var b32 := Join3to4(a, b, c);
    [EncodeChar(((b32 >> 18) & 0x3f) as byte), EncodeChar(((b32 >> 12) & 0x3f) as byte),
     EncodeChar(((b32 >> 6) & 0x3f) as byte), EncodeChar((b32 & 0x3f) as byte)]
  }

  function Encode2to4(a: byte, b: byte): seq<byte> {
    [EncodeChar((a >> 2) & 0x3f), EncodeChar(((a & 0x03) << 4) | ((b >> 4) & 0x0f)), EncodeChar((b & 0x0f) << 2), PAD]
  }

  function Encode1to4(a: byte): seq<byte> {
    [EncodeChar((a >> 2) & 0x3f), EncodeChar((a & 0x03) << 4), PAD, PAD]
  }

  function Encode(data: seq<byte>): seq<byte>
    decreases |data|
  {
    if |data| >= 3 then Encode3to4(data[0], data[1], data[2]) + Encode(data[3..])
    else if |data| == 2 then Encode2to4(data[0], data[1])
    else if |data| == 1 then Encode1to4(data[0])
    else []
  }

  function Byte0(w: byte, x: byte): byte {
    (w << 2) | (x >> 4)
  }

  function Byte1(x: byte, y: byte): byte {
    (x << 4) | (y >> 2)
  }

  function Byte2(y: byte, z: byte): byte {
    (y << 6) | z
  }

  predicate AllInAlphabet(text: seq<byte>) {
    forall c :: c in text ==> InAlphabet(c)
  }

  /** The bytes of a text without white space and padding. */
  function DecodeGroups(text: seq<byte>): Option<seq<byte>>
    decreases |text|
  {
    if |text| >= 4 then
      if AllInAlphabet(text[..4]) then
        var w, x, y, z := DecodeChar(text[0]), DecodeChar(text[1]), DecodeChar(text[2]), DecodeChar(text[3]);
        match DecodeGroups(text[4..])
        case None => None
        case Some(rest) => Some([Byte0(w, x), Byte1(x, y), Byte2(y, z)] + rest)
      else None
    else if !AllInAlphabet(text) || |text| == 1 then None
    else if |text| == 3 then Some([Byte0(DecodeChar(text[0]), DecodeChar(text[1])), Byte1(DecodeChar(text[1]), DecodeChar(text[2]))])
    else if |text| == 2 then Some([Byte0(DecodeChar(text[0]), DecodeChar(text[1]))])
    else Some([])
  }

  predicate IsWhitespace(c: byte) {
    c == 9 || c == 10 || c == 12 || c == 13 || c == 32
  }

  function Strip(text: seq<byte>): seq<byte> {
    if text == [] then []
    else if IsWhitespace(text[|text| - 1]) then Strip(text[..|text| - 1])
    else Strip(text[..|text| - 1]) + [text[|text| - 1]]
  }

  /** One or two '=' at the end go if the length is a multiple of four. */
  function Unpad(text: seq<byte>): seq<byte> {
    if text == [] || |text| % 4 != 0 || text[|text| - 1] != PAD then text
    else if text[|text| - 2] == PAD then text[..|text| - 2]
    else text[..|text| - 1]
  }

  function Decode(text: seq<byte>): Option<seq<byte>> {
    var unpadded := Unpad(Strip(text));
    if |unpadded| % 4 == 1 then None else DecodeGroups(unpadded)
  }

  // ---------- the encoder ----------

  method ForgivingBase64Encode(data: seq<byte>) returns (output: seq<byte>)
    requires |data| < 0x8000_0000
    ensures output == Encode(data)
  {
    var view := data;
    var length := |data|;
    output := [];
    while length >= 3
      invariant length == |view|
      invariant output + Encode(view) == Encode(data)
    {
      var group := EncodeGroup(view);
      output := output + group;
      view := view[3..];
      length := length - 3;
    }
    if length == 2 {
      output := output + Encode2to4(view[0], view[1]);
    } else if length == 1 {
      output := output + Encode1to4(view[0]);
    }
  }

  /** `base64Encode3to4`, whose loops gather three bytes and hand out four groups of six bits. */
  method EncodeGroup(data: seq<byte>) returns (group: seq<byte>)
    requires |data| >= 3
    ensures group == Encode3to4(data[0], data[1], data[2])
  {
    var b32: bv32 := 0;
    for i := 0 to 3
      invariant i == 0 ==> b32 == 0
      invariant i == 1 ==> b32 == data[0] as bv32
      invariant i == 2 ==> b32 == (data[0] as bv32 << 8) | (data[1] as bv32)
      invariant i == 3 ==> b32 == Join3to4(data[0], data[1], data[2])
    {
      b32 := b32 << 8;
      b32 := b32 | (data[i] as bv32);
    }
    group := [];
    var j: bv5 := 18;
    ghost var encoded := Encode3to4(data[0], data[1], data[2]);
    for i := 0 to 4
      invariant group == encoded[..i]
      invariant b32 == Join3to4(data[0], data[1], data[2])
      invariant i == 0 ==> j == 18
      invariant i == 1 ==> j == 12
      invariant i == 2 ==> j == 6
      invariant i == 3 ==> j == 0
    {
      group := group + [EncodeChar(((b32 >> j) & 0x3f) as byte)];
      j := j - 6;
    }
  }

  // ---------- the decoder ----------

  method CharacterToValue(character: byte) returns (ok: bool, value: byte)
    ensures ok == InAlphabet(character)
    ensures ok ==> value == DecodeChar(character)
  {
    if character & 0x80 != 0 {
      return false, 0;
    }
    value := DecodeChar(character);
    ok := value != NON_ALPHABET;
  }

  method RemoveWhitespace(data: seq<byte>) returns (stripped: seq<byte>)
    ensures stripped == Strip(data)
  {
    stripped := [];
    for i := 0 to |data|
      invariant stripped == Strip(data[..i])
    {
      assert data[..i + 1][..i] == data[..i];
      if !IsWhitespace(data[i]) {
        stripped := stripped + [data[i]];
      }
    }
    assert data[..|data|] == data;
  }

  lemma AllOfFour(input: seq<byte>)
    requires |input| >= 4
    ensures AllInAlphabet(input[..4]) <==> InAlphabet(input[0]) && InAlphabet(input[1]) && InAlphabet(input[2]) && InAlphabet(input[3])
  {
    hide InAlphabet;
    assert input[..4] == [input[0], input[1], input[2], input[3]];
  }

  method Decode4to3(input: seq<byte>) returns (bytes: Option<seq<byte>>)
    requires |input| >= 4
    ensures bytes.Some? <==> AllInAlphabet(input[..4])
    ensures bytes.Some? ==>
      bytes.value == [Byte0(DecodeChar(input[0]), DecodeChar(input[1])), Byte1(DecodeChar(input[1]), DecodeChar(input[2])),
                      Byte2(DecodeChar(input[2]), DecodeChar(input[3]))]
  {
    AllOfFour(input);
    hide DecodeChar, InAlphabet, AllInAlphabet;
    var okW, w := CharacterToValue(input[0]);
    var okX, x := CharacterToValue(input[1]);
    var okY, y := CharacterToValue(input[2]);
    var okZ, z := CharacterToValue(input[3]);
    if !okW || !okX || !okY || !okZ {
      return None;
    }
    bytes := Some([(w << 2) | (x >> 4), (x << 4) | (y >> 2), (y << 6) | z]);
  }

  method Decode3to2(input: seq<byte>) returns (bytes: Option<seq<byte>>)
    requires |input| == 3
    ensures bytes == DecodeGroups(input)
  {
    hide DecodeChar, InAlphabet;
    assert input == [input[0], input[1], input[2]];
    var okW, w := CharacterToValue(input[0]);
    var okX, x := CharacterToValue(input[1]);
    var okY, y := CharacterToValue(input[2]);
    if !okW || !okX || !okY {
      return None;
    }
    bytes := Some([(w << 2) | (x >> 4), (x << 4) | (y >> 2)]);
  }

  method Decode2to1(input: seq<byte>) returns (bytes: Option<seq<byte>>)
    requires |input| == 2
    ensures bytes == DecodeGroups(input)
  {
    hide DecodeChar, InAlphabet;
    assert input == [input[0], input[1]];
    var okW, w := CharacterToValue(input[0]);
    var okX, x := CharacterToValue(input[1]);
    if !okW || !okX {
      return None;
    }
    bytes := Some([(w << 2) | (x >> 4)]);
  }

  /** The characters left when no group of four is. */
  method DecodeRest(view: seq<byte>) returns (bytes: Option<seq<byte>>)
    requires |view| < 4
    ensures bytes == DecodeGroups(view)
  {
    if |view| == 3 {
      bytes := Decode3to2(view);
    } else if |view| == 2 {
      bytes := Decode2to1(view);
    } else if |view| == 1 {
      bytes := None;
    } else {
      bytes := Some([]);
    }
  }

  method ForgivingBase64Decode(data: seq<byte>) returns (output: Option<seq<byte>>)
    ensures output == Decode(data)
  {
    var view := RemoveWhitespace(data);
    var length := |view|;
    if length != 0 && length % 4 == 0 {
      if view[length - 1] == PAD {
        if view[length - 2] == PAD {
          view := view[..length - 2];
        } else {
          view := view[..length - 1];
        }
      }
    }
    assert view == Unpad(Strip(data));
    hide Unpad, Strip;
    if |view| % 4 == 1 {
      return None;
    }
    output := DecodeAll(view);
  }

  /** The loop over the groups and the switch after it. */
  method DecodeAll(text: seq<byte>) returns (output: Option<seq<byte>>)
    ensures output == DecodeGroups(text)
  {
    var view := text;
    var bytes := [];
    while |view| >= 4
      invariant DecodeGroups(text).Some? <==> DecodeGroups(view).Some?
      invariant DecodeGroups(view).Some? ==> DecodeGroups(text).value == bytes + DecodeGroups(view).value
    {
      var group := Decode4to3(view);
      if group.None? {
        return None;
      }
      assert DecodeGroups(view).Some? ==> DecodeGroups(view).value == group.value + DecodeGroups(view[4..]).value;
      bytes := bytes + group.value;
      view := view[4..];
    }
    var rest := DecodeRest(view);
    if rest.None? {
      return None;
    }
    output := Some(bytes + rest.value);
  }
}
