/**
 The reference for valid UTF-8: the encoding of code points of section 3 of RFC 3629. The
 grammar of Report accepts exactly the concatenations of encoded code points.
 */
module RuneCodes {
  import opened Common
  import opened Report

  /** Unicode scalar values: no surrogates, nothing above U+10FFFF. */
  predicate Scalar(c: nat) {
    c < 0xD800 || 0xE000 <= c < 0x110000
  }

  function EncodeRune(c: nat): (s: seq<byte>)
    requires Scalar(c)
    ensures 1 <= |s| <= 4
  {
    if c < 0x80 then [c]
    else if c < 0x800 then [0xC0 + c / 64, 0x80 + c % 64]
    else if c < 0x10000 then [0xE0 + c / 4096, 0x80 + c / 64 % 64, 0x80 + c % 64]
    else [0xF0 + c / 262144, 0x80 + c / 4096 % 64, 0x80 + c / 64 % 64, 0x80 + c % 64]
  }

  function EncodeRunes(cs: seq<nat>): (s: seq<byte>)
    requires forall i :: 0 <= i < |cs| ==> Scalar(cs[i])
  {
    if cs == [] then [] else EncodeRune(cs[0]) + EncodeRunes(cs[1..])
  }

  /** An encoded code point is recognised as one character, whatever follows. */
  lemma EncodedIsRune(c: nat, rest: seq<byte>)
    requires Scalar(c)
    ensures RuneLen(EncodeRune(c) + rest) == |EncodeRune(c)|
  {
    var s := EncodeRune(c);
    assert forall i :: 0 <= i < |s| ==> (s + rest)[i] == s[i];
    if |s| == 3 {
      ThreeBytes(c);
    } else if |s| == 4 {
      FourBytes(c);
    }
  }

  lemma ThreeBytes(c: nat)
    requires Scalar(c) && 0x800 <= c < 0x10000
    ensures Second3(0xE0 + c / 4096, 0x80 + c / 64 % 64)
  {
  }

  lemma FourBytes(c: nat)
    requires Scalar(c) && 0x10000 <= c
    ensures Second4(0xF0 + c / 262144, 0x80 + c / 4096 % 64)
  {
  }

  lemma Sixes(q: nat, r: nat)
    requires r < 64
    ensures (q * 64 + r) / 64 == q && (q * 64 + r) % 64 == r
  {
  }

  /** A recognised character is the encoding of a code point. */
  lemma RuneIsEncoded(s: seq<byte>) returns (c: nat)
    requires RuneLen(s) > 0
    ensures Scalar(c) && s[..RuneLen(s)] == EncodeRune(c)
  {
    var n := RuneLen(s);
    if n == 1 {
      c := s[0];
    } else if n == 2 {
      c := DecodeTwo(s[0], s[1]);
    } else if n == 3 {
      c := DecodeThree(s[0], s[1], s[2]);
    } else {
      c := DecodeFour(s[0], s[1], s[2], s[3]);
    }
  }

  lemma DecodeTwo(a: byte, b: byte) returns (c: nat)
    requires 0xC2 <= a <= 0xDF && Continuation(b)
    ensures Scalar(c) && EncodeRune(c) == [a, b]
  {
    c := (a - 0xC0) * 64 + (b - 0x80);
    Sixes(a - 0xC0, b - 0x80);
  }

  lemma DecodeThree(a: byte, b: byte, d: byte) returns (c: nat)
    requires Second3(a, b) && Continuation(d)
    ensures Scalar(c) && EncodeRune(c) == [a, b, d]
  {
    var high := (a - 0xE0) * 64 + (b - 0x80);
    c := high * 64 + (d - 0x80);
    Sixes(a - 0xE0, b - 0x80);
    Sixes(high, d - 0x80);
    assert c / 4096 == high / 64;
  }

  lemma DecodeFour(a: byte, b: byte, d: byte, e: byte) returns (c: nat)
    requires Second4(a, b) && Continuation(d) && Continuation(e)
    ensures Scalar(c) && EncodeRune(c) == [a, b, d, e]
  {
    var top := (a - 0xF0) * 64 + (b - 0x80);
    var high := top * 64 + (d - 0x80);
    c := high * 64 + (e - 0x80);
    Sixes(a - 0xF0, b - 0x80);
    Sixes(top, d - 0x80);
    Sixes(high, e - 0x80);
    assert c / 4096 == high / 64 && c / 262144 == top / 64;
  }

  /** Encoded text is valid. */
  lemma {:induction false} EncodedIsValid(cs: seq<nat>)
    requires forall i :: 0 <= i < |cs| ==> Scalar(cs[i])
    ensures ValidUTF8(EncodeRunes(cs))
  {
    if cs != [] {
      EncodedIsRune(cs[0], EncodeRunes(cs[1..]));
      EncodedIsValid(cs[1..]);
      var s := EncodeRunes(cs);
      assert s[|EncodeRune(cs[0])|..] == EncodeRunes(cs[1..]);
    }
  }

  /** Valid text is encoded: it has code points, and encoding them gives it back. */
  lemma {:induction false} ValidIsEncoded(s: seq<byte>) returns (cs: seq<nat>)
    requires ValidUTF8(s)
    ensures forall i :: 0 <= i < |cs| ==> Scalar(cs[i])
    ensures s == EncodeRunes(cs)
  {
    cs := [];
    if s != [] {
      var n := RuneLen(s);
      var c := RuneIsEncoded(s);
      var later := ValidIsEncoded(s[n..]);
      cs := [c] + later;
      assert cs[1..] == later;
      assert s == s[..n] + s[n..];
    }
  }
}
