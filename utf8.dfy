/** UTF-8 as defined in RFC 3629: what Node's `Buffer.from(string)` produces
    for a string of Unicode scalar values, and the strict decoder that
    accepts exactly the well-formed byte sequences. */
module Utf8 {
  import opened Wrappers
  import opened Base64

  predicate IsContinuation(b: byte) {
    0x80 <= b < 0xC0
  }

  /** The bytes of one code point. */
  function EncodeChar(c: char): (r: seq<byte>)
    ensures 1 <= |r| <= 4
  {
    var cp := c as int;
    if cp < 0x80 then [cp]
    else if cp < 0x800 then [0xC0 + cp / 64, 0x80 + cp % 64]
    else if cp < 0x1_0000 then [0xE0 + cp / 4096, 0x80 + (cp / 64) % 64, 0x80 + cp % 64]
    else [0xF0 + cp / 262144, 0x80 + (cp / 4096) % 64, 0x80 + (cp / 64) % 64, 0x80 + cp % 64]
  }

  function Encode(s: string): (r: seq<byte>)
    ensures |s| <= |r| <= 4 * |s|
  {
    if s == [] then [] else EncodeChar(s[0]) + Encode(s[1..])
  }

  /** A code point that a `char` can hold: not a surrogate, at most U+10FFFF. */
  predicate IsScalar(cp: int) {
    (0 <= cp < 0xD800) || (0xE000 <= cp < 0x11_0000)
  }

  lemma Join2(x0: int, x1: int)
    requires 0xC2 <= x0 < 0xE0 && 0x80 <= x1 < 0xC0
    ensures var cp := (x0 - 0xC0) * 64 + (x1 - 0x80);
      0x80 <= cp < 0x800 && 0xC0 + cp / 64 == x0 && 0x80 + cp % 64 == x1
  {
  }

  lemma Join3(x0: int, x1: int, x2: int)
    requires 0xE0 <= x0 < 0xF0 && 0x80 <= x1 < 0xC0 && 0x80 <= x2 < 0xC0
    ensures var cp := (x0 - 0xE0) * 4096 + (x1 - 0x80) * 64 + (x2 - 0x80);
      cp < 0x1_0000 && 0xE0 + cp / 4096 == x0 && 0x80 + (cp / 64) % 64 == x1 && 0x80 + cp % 64 == x2
  {
  }

  lemma DivMod64(q: int, r: int)
    requires q >= 0 && 0 <= r < 64
    ensures (q * 64 + r) / 64 == q && (q * 64 + r) % 64 == r
  {
  }

  lemma DivMod4096(q: int, r: int)
    requires q >= 0 && 0 <= r < 4096
    ensures (q * 4096 + r) / 4096 == q
  {
  }

  lemma DivMod262144(q: int, r: int)
    requires q >= 0 && 0 <= r < 262144
    ensures (q * 262144 + r) / 262144 == q
  {
  }

  lemma Join4(x0: int, x1: int, x2: int, x3: int)
    requires 0xF0 <= x0 < 0xF5 && 0x80 <= x1 < 0xC0 && 0x80 <= x2 < 0xC0 && 0x80 <= x3 < 0xC0
    ensures var cp := (x0 - 0xF0) * 262144 + (x1 - 0x80) * 4096 + (x2 - 0x80) * 64 + (x3 - 0x80);
      0xF0 + cp / 262144 == x0 && 0x80 + (cp / 4096) % 64 == x1
      && 0x80 + (cp / 64) % 64 == x2 && 0x80 + cp % 64 == x3
  {
    var a, b1, b2, b3 := x0 - 0xF0, x1 - 0x80, x2 - 0x80, x3 - 0x80;
    var cp := a * 262144 + b1 * 4096 + b2 * 64 + b3;
    DivMod262144(a, b1 * 4096 + b2 * 64 + b3);
    DivMod4096(a * 64 + b1, b2 * 64 + b3);
    DivMod64(a, b1);
    DivMod64(a * 4096 + b1 * 64 + b2, b3);
    DivMod64(a * 64 + b1, b2);
  }

  /** A two-byte sequence `110xxxxx 10xxxxxx`. */
  function DecodeFirst2(b: seq<byte>): (r: Option<(char, nat)>)
    requires |b| >= 2 && 0xC2 <= b[0] < 0xE0
    ensures r.Some? ==> r.value.1 == 2 && EncodeChar(r.value.0) == b[..2]
  {
    if !IsContinuation(b[1]) then None
    else
      var cp := (b[0] as int - 0xC0) * 64 + (b[1] as int - 0x80);
      Join2(b[0] as int, b[1] as int);
      assert b[..2] == [b[0], b[1]];
      Some((cp as char, 2))
  }

  /** A three-byte sequence `1110xxxx 10xxxxxx 10xxxxxx`. */
  function DecodeFirst3(b: seq<byte>): (r: Option<(char, nat)>)
    requires |b| >= 3 && 0xE0 <= b[0] < 0xF0
    ensures r.Some? ==> r.value.1 == 3 && EncodeChar(r.value.0) == b[..3]
  {
    if !IsContinuation(b[1]) || !IsContinuation(b[2]) then None
    else
      var cp := (b[0] as int - 0xE0) * 4096 + (b[1] as int - 0x80) * 64 + (b[2] as int - 0x80);
      if 0x800 <= cp && IsScalar(cp) then
        Join3(b[0] as int, b[1] as int, b[2] as int);
        assert b[..3] == [b[0], b[1], b[2]];
        Some((cp as char, 3))
      else None
  }

  /** A four-byte sequence `11110xxx 10xxxxxx 10xxxxxx 10xxxxxx`. */
  function DecodeFirst4(b: seq<byte>): (r: Option<(char, nat)>)
    requires |b| >= 4 && 0xF0 <= b[0] < 0xF5
    ensures r.Some? ==> r.value.1 == 4 && EncodeChar(r.value.0) == b[..4]
  {
    if !IsContinuation(b[1]) || !IsContinuation(b[2]) || !IsContinuation(b[3]) then None
    else
      var cp := (b[0] as int - 0xF0) * 262144 + (b[1] as int - 0x80) * 4096
              + (b[2] as int - 0x80) * 64 + (b[3] as int - 0x80);
      if 0x1_0000 <= cp < 0x11_0000 then
        Join4(b[0] as int, b[1] as int, b[2] as int, b[3] as int);
        assert b[..4] == [b[0], b[1], b[2], b[3]];
        Some((cp as char, 4))
      else None
  }

  /** Decodes the first code point of `b`, with its length; rejects overlong
      forms, surrogates and values above U+10FFFF. */
  function DecodeFirst(b: seq<byte>): (r: Option<(char, nat)>)
    requires b != []
    ensures r.Some? ==> 1 <= r.value.1 <= |b| && EncodeChar(r.value.0) == b[..r.value.1]
  {
    if b[0] < 0x80 then
      assert b[..1] == [b[0]];
      Some((b[0] as char, 1))
    else if 0xC2 <= b[0] < 0xE0 && |b| >= 2 then DecodeFirst2(b)
    else if 0xE0 <= b[0] < 0xF0 && |b| >= 3 then DecodeFirst3(b)
    else if 0xF0 <= b[0] < 0xF5 && |b| >= 4 then DecodeFirst4(b)
    else None
  }

  /** Decodes well-formed UTF-8; only the encoding of some string is accepted. */
  function Decode(b: seq<byte>): (r: Option<string>)
    ensures r.Some? ==> Encode(r.value) == b
    decreases |b|
  {
    if b == [] then Some("")
    else
      match DecodeFirst(b)
      case None => None
      case Some((c, n)) =>
        match Decode(b[n..])
        case None => None
        case Some(rest) =>
          EncodeCons(c, rest);
          SplitAt(b, n);
          Some([c] + rest)
  }

  lemma EncodeCons(c: char, rest: string)
    ensures Encode([c] + rest) == EncodeChar(c) + Encode(rest)
  {
    assert ([c] + rest)[1..] == rest;
  }

  lemma SplitAt<T>(b: seq<T>, n: nat)
    requires n <= |b|
    ensures b[..n] + b[n..] == b
  {
  }

  lemma DecodeFirstEncodeChar(c: char, tail: seq<byte>)
    ensures DecodeFirst(EncodeChar(c) + tail) == Some((c, |EncodeChar(c)|))
  {
    var cp := c as int;
    if cp < 0x80 {
      assert (EncodeChar(c) + tail)[0] == cp;
    } else if cp < 0x800 {
      FirstOfTwo(c, tail);
    } else if cp < 0x1_0000 {
      FirstOfThree(c, tail);
    } else {
      FirstOfFour(c, tail);
    }
  }

  lemma FirstOfTwo(c: char, tail: seq<byte>)
    requires 0x80 <= c as int < 0x800
    ensures DecodeFirst(EncodeChar(c) + tail) == Some((c, |EncodeChar(c)|))
  {
    var cp, b := c as int, EncodeChar(c) + tail;
    DecodeTwo(cp, b);
  }

  lemma FirstOfThree(c: char, tail: seq<byte>)
    requires 0x800 <= c as int < 0x1_0000
    ensures DecodeFirst(EncodeChar(c) + tail) == Some((c, |EncodeChar(c)|))
  {
    var cp, b := c as int, EncodeChar(c) + tail;
    DecodeThree(cp, b);
  }

  lemma FirstOfFour(c: char, tail: seq<byte>)
    requires 0x1_0000 <= c as int
    ensures DecodeFirst(EncodeChar(c) + tail) == Some((c, |EncodeChar(c)|))
  {
    var cp, b := c as int, EncodeChar(c) + tail;
    DecodeFour(cp, b[0], b[1], b[2], b[3]);
  }

  lemma DecodeTwo(cp: int, b: seq<byte>)
    requires 0x80 <= cp < 0x800 && |b| >= 2 && b[0] == 0xC0 + cp / 64 && b[1] == 0x80 + cp % 64
    ensures (b[0] as int - 0xC0) * 64 + (b[1] as int - 0x80) == cp && 0xC2 <= b[0]
  {
  }

  lemma DecodeThree(cp: int, b: seq<byte>)
    requires 0x800 <= cp < 0x1_0000 && |b| >= 3
    requires b[0] == 0xE0 + cp / 4096 && b[1] == 0x80 + (cp / 64) % 64 && b[2] == 0x80 + cp % 64
    ensures (b[0] as int - 0xE0) * 4096 + (b[1] as int - 0x80) * 64 + (b[2] as int - 0x80) == cp
  {
  }

  lemma DecodeFour(cp: int, x0: int, x1: int, x2: int, x3: int)
    requires 0x1_0000 <= cp < 0x11_0000
    requires x0 == 0xF0 + cp / 262144 && x1 == 0x80 + (cp / 4096) % 64
    requires x2 == 0x80 + (cp / 64) % 64 && x3 == 0x80 + cp % 64
    ensures (x0 - 0xF0) * 262144 + (x1 - 0x80) * 4096 + (x2 - 0x80) * 64 + (x3 - 0x80) == cp
    ensures x0 < 0xF5
  {
    var q1 := cp / 64;
    var q2 := cp / 4096;
    var q3 := cp / 262144;
    assert cp == q1 * 64 + cp % 64;
    assert q1 == q2 * 64 + q1 % 64;
    assert q2 == q3 * 64 + q2 % 64;
  }

  /** Decoding the encoding of a string gives the string back. */
  lemma {:induction false} DecodeEncode(s: string)
    ensures Decode(Encode(s)) == Some(s)
  {
    if s != [] {
      var head, tail := EncodeChar(s[0]), Encode(s[1..]);
      DecodeFirstEncodeChar(s[0], tail);
      assert (head + tail)[|head|..] == tail;
      DecodeEncode(s[1..]);
      assert s == [s[0]] + s[1..];
    }
  }

  /** ASCII text is encoded one byte per character, each byte the character's code. */
  lemma {:induction false} EncodeAscii(s: string)
    requires forall i :: 0 <= i < |s| ==> s[i] as int < 0x80
    ensures |Encode(s)| == |s| && forall i :: 0 <= i < |s| ==> Encode(s)[i] == s[i] as int
  {
    if s != [] {
      EncodeAscii(s[1..]);
    }
  }

  /** Only the character U+0000 is encoded as a zero byte. */
  lemma {:induction false} EncodeNoZero(s: string)
    requires forall i :: 0 <= i < |s| ==> s[i] != '\0'
    ensures forall j :: 0 <= j < |Encode(s)| ==> Encode(s)[j] != 0
  {
    if s != [] {
      EncodeNoZero(s[1..]);
      var head, tail := EncodeChar(s[0]), Encode(s[1..]);
      assert s[0] != '\0';
      forall j | 0 <= j < |head + tail|
        ensures (head + tail)[j] != 0
      {
        if j >= |head| {
          assert (head + tail)[j] == tail[j - |head|];
        }
      }
    }
  }

  /** Distinct strings have distinct encodings. */
  lemma EncodeInjective(a: string, b: string)
    requires Encode(a) == Encode(b)
    ensures a == b
  {
    DecodeEncode(a);
    DecodeEncode(b);
  }
}
