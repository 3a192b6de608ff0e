/** Valid byte strings are exactly the encodings of Unicode scalar values (RFC 3629, section 3). */
module Utf8Scalars {
  import opened Utf8

  predicate Scalar(c: int) {
    0 <= c <= 0xD7FF || 0xE000 <= c <= 0x10FFFF
  }

  function Encode(c: int): bytes
    requires Scalar(c)
  {
    if c < 0x80 then [c]
    else if c < 0x800 then [0xC0 + c / 64, 0x80 + c % 64]
    else if c < 0x10000 then [0xE0 + c / 4096, 0x80 + c / 64 % 64, 0x80 + c % 64]
    else [0xF0 + c / 262144, 0x80 + c / 4096 % 64, 0x80 + c / 64 % 64, 0x80 + c % 64]
  }

  function EncodeAll(cs: seq<int>): bytes
    requires forall i :: 0 <= i < |cs| ==> Scalar(cs[i])
  {
    if cs == [] then [] else Encode(cs[0]) + EncodeAll(cs[1..])
  }

  // The encoding of a scalar value is recognised as one code point.
  lemma EncodedWidth(c: int)
    requires Scalar(c)
    ensures Width(Encode(c)) == |Encode(c)| > 0
  {
    if 0x800 <= c < 0x10000 {
      assert c / 4096 == c / 64 / 64;
    }
  }

  lemma {:induction false} EncodedIsValid(cs: seq<int>)
    requires forall i :: 0 <= i < |cs| ==> Scalar(cs[i])
    ensures Valid(EncodeAll(cs))
  {
    if cs != [] {
      EncodedIsValid(cs[1..]);
      EncodedWidth(cs[0]);
      var e := Encode(cs[0]);
      assert e[|e|..] == [];
      assert Valid(e);
      ValidAppend(e, EncodeAll(cs[1..]));
    }
  }

  // What a byte adds to the scalar value.
  function Bits(b: byte, base: int): int {
    b as int - base
  }

  // The scalar value of a recognised code point.
  function Decode(s: bytes): int
    requires Width(s) > 0
  {
    if Width(s) == 1 then s[0]
    else if Width(s) == 2 then Bits(s[0], 0xC0) * 64 + Bits(s[1], 0x80)
    else if Width(s) == 3 then Bits(s[0], 0xE0) * 4096 + Bits(s[1], 0x80) * 64 + Bits(s[2], 0x80)
    else Bits(s[0], 0xF0) * 262144 + Bits(s[1], 0x80) * 4096 + Bits(s[2], 0x80) * 64 + Bits(s[3], 0x80)
  }

  lemma DecodedTwo(s: bytes)
    requires Width(s) == 2
    ensures Scalar(Decode(s)) && Encode(Decode(s)) == s[..2]
  {
  }

  lemma DecodedThree(s: bytes)
    requires Width(s) == 3
    ensures Scalar(Decode(s)) && Encode(Decode(s)) == s[..3]
  {
    var c := Decode(s);
    assert c / 4096 == Bits(s[0], 0xE0);
    assert c / 64 == Bits(s[0], 0xE0) * 64 + Bits(s[1], 0x80);
  }

  lemma DecodedFour(s: bytes)
    requires Width(s) == 4
    ensures Scalar(Decode(s)) && Encode(Decode(s)) == s[..4]
  {
    var c := Decode(s);
    assert c / 262144 == Bits(s[0], 0xF0);
    assert c / 4096 == Bits(s[0], 0xF0) * 64 + Bits(s[1], 0x80);
    assert c / 64 == Bits(s[0], 0xF0) * 4096 + Bits(s[1], 0x80) * 64 + Bits(s[2], 0x80);
  }

  lemma DecodedIsEncoded(s: bytes)
    requires Width(s) > 0
    ensures Scalar(Decode(s)) && Encode(Decode(s)) == s[..Width(s)]
  {
    if Width(s) == 2 {
      DecodedTwo(s);
    } else if Width(s) == 3 {
      DecodedThree(s);
    } else if Width(s) == 4 {
      DecodedFour(s);
    }
  }

  lemma EncodeAllCons(c: int, cs: seq<int>)
    requires Scalar(c) && forall i :: 0 <= i < |cs| ==> Scalar(cs[i])
    ensures forall i :: 0 <= i < |[c] + cs| ==> Scalar(([c] + cs)[i])
    ensures EncodeAll([c] + cs) == Encode(c) + EncodeAll(cs)
  {
    assert ([c] + cs)[1..] == cs;
  }

  lemma {:induction false} ValidIsEncoded(s: bytes) returns (cs: seq<int>)
    requires Valid(s)
    ensures (forall i :: 0 <= i < |cs| ==> Scalar(cs[i])) && s == EncodeAll(cs)
    decreases |s|
  {
    if s == [] {
      cs := [];
    } else {
      DecodedIsEncoded(s);
      var rest := ValidIsEncoded(s[Width(s)..]);
      cs := [Decode(s)] + rest;
      EncodeAllCons(Decode(s), rest);
      assert s == s[..Width(s)] + s[Width(s)..];
    }
  }

  ghost predicate IsEncoding(s: bytes, cs: seq<int>) {
    (forall i :: 0 <= i < |cs| ==> Scalar(cs[i])) && s == EncodeAll(cs)
  }

  // Both directions.
  lemma ValidExactlyWhenEncoded(s: bytes)
    ensures Valid(s) <==> exists cs :: IsEncoding(s, cs)
  {
    if Valid(s) {
      var cs := ValidIsEncoded(s);
      assert IsEncoding(s, cs);
    }
    if cs :| IsEncoding(s, cs) {
      EncodedIsValid(cs);
    }
  }
}
