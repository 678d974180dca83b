/** Base 64 encoding as defined in RFC 4648: the standard alphabet of
    section 4, the URL- and filename-safe alphabet of section 5, and the
    `=` padding of section 3.2.  `Encode` is what Node's
    `buffer.toString("base64")` produces; `Decode` is the strict decoder the
    model uses as its reference (it accepts exactly the canonical encodings). */
module Base64 {
  import opened Wrappers
  import Text

  type byte = x: int | 0 <= x < 256
  type sextet = x: int | 0 <= x < 64

  datatype Alphabet = Standard | UrlSafe

  /** The character that stands for the 6-bit value `v`. */
  function CharOf(a: Alphabet, v: sextet): char {
    if v < 26 then ('A' as int + v) as char
    else if v < 52 then ('a' as int + (v - 26)) as char
    else if v < 62 then ('0' as int + (v - 52)) as char
    else if v == 62 then (if a == Standard then '+' else '-')
    else (if a == Standard then '/' else '_')
  }

  /** The 6-bit value a character stands for, if it belongs to the alphabet. */
  function ValueOf(a: Alphabet, c: char): (r: Option<sextet>)
    ensures r.Some? ==> CharOf(a, r.value) == c
  {
    if 'A' <= c <= 'Z' then Some(c as int - 'A' as int)
    else if 'a' <= c <= 'z' then Some(c as int - 'a' as int + 26)
    else if '0' <= c <= '9' then Some(c as int - '0' as int + 52)
    else if c == (if a == Standard then '+' else '-') then Some(62)
    else if c == (if a == Standard then '/' else '_') then Some(63)
    else None
  }

  /** Every digit is read back as the value it stands for, and the padding
      character is never a digit of either alphabet. */
  lemma ValueOfCharOf(a: Alphabet, v: sextet)
    ensures ValueOf(a, CharOf(a, v)) == Some(v)
    ensures CharOf(a, v) != '='
  {
  }

  // Splitting three bytes x, y, z into four sextets (section 4 of RFC 4648);
  // a missing byte counts as zero.
  function S0(x: byte): sextet { x / 4 }
  function S1(x: byte, y: byte): sextet { (x % 4) * 16 + y / 16 }
  function S2(y: byte, z: byte): sextet { (y % 16) * 4 + z / 64 }
  function S3(z: byte): sextet { z % 64 }

  // Joining sextets back into bytes.
  function B0(c0: sextet, c1: sextet): byte { c0 * 4 + c1 / 16 }
  function B1(c1: sextet, c2: sextet): byte { (c1 % 16) * 16 + c2 / 4 }
  function B2(c2: sextet, c3: sextet): byte { (c2 % 4) * 64 + c3 }

  lemma JoinAfterSplit(x: byte, y: byte, z: byte)
    ensures B0(S0(x), S1(x, y)) == x
    ensures B1(S1(x, y), S2(y, z)) == y
    ensures B2(S2(y, z), S3(z)) == z
  {
  }

  lemma SplitAfterJoin(c0: sextet, c1: sextet, c2: sextet, c3: sextet)
    ensures S0(B0(c0, c1)) == c0
    ensures S1(B0(c0, c1), B1(c1, c2)) == c1
    ensures S2(B1(c1, c2), B2(c2, c3)) == c2
    ensures S3(B2(c2, c3)) == c3
  {
  }

  /** The padded encoding: four characters per three bytes, the last group
      completed with one or two `=`. */
  function Encode(a: Alphabet, b: seq<byte>): (s: string)
    ensures |s| == 4 * ((|b| + 2) / 3)
    decreases |b|
  {
    if |b| == 0 then ""
    else if |b| == 1 then
      [CharOf(a, S0(b[0])), CharOf(a, S1(b[0], 0))] + "=="
    else if |b| == 2 then
      [CharOf(a, S0(b[0])), CharOf(a, S1(b[0], b[1])), CharOf(a, S2(b[1], 0))] + "="
    else
      EncodeGroup(a, b[0], b[1], b[2]) + Encode(a, b[3..])
  }

  /** The characters that encode a group of three bytes. */
  function EncodeGroup(a: Alphabet, x: byte, y: byte, z: byte): string {
    [CharOf(a, S0(x)), CharOf(a, S1(x, y)), CharOf(a, S2(y, z)), CharOf(a, S3(z))]
  }

  /** Decodes four digits that carry three bytes. */
  function DecodeGroup(a: Alphabet, g: string): (r: Option<seq<byte>>)
    requires |g| == 4
    ensures r.Some? ==> |r.value| == 3 && EncodeGroup(a, r.value[0], r.value[1], r.value[2]) == g
  {
    var v0, v1, v2, v3 := ValueOf(a, g[0]), ValueOf(a, g[1]), ValueOf(a, g[2]), ValueOf(a, g[3]);
    if v0.None? || v1.None? || v2.None? || v3.None? then None
    else
      SplitAfterJoin(v0.value, v1.value, v2.value, v3.value);
      Some([B0(v0.value, v1.value), B1(v1.value, v2.value), B2(v2.value, v3.value)])
  }

  lemma SplitAfterJoinOne(c0: sextet, c1: sextet)
    requires c1 % 16 == 0
    ensures S0(B0(c0, c1)) == c0 && S1(B0(c0, c1), 0) == c1
  {
  }

  lemma SplitAfterJoinTwo(c0: sextet, c1: sextet, c2: sextet)
    requires c2 % 4 == 0
    ensures S0(B0(c0, c1)) == c0 && S1(B0(c0, c1), B1(c1, c2)) == c1 && S2(B1(c1, c2), 0) == c2
  {
  }

  /** Decodes a final group `xy==` that carries one byte. */
  function DecodeOne(a: Alphabet, g: string): (r: Option<seq<byte>>)
    requires |g| == 4 && g[2] == '=' && g[3] == '='
    ensures r.Some? ==> |r.value| == 1 && Encode(a, r.value) == g
  {
    var v0, v1 := ValueOf(a, g[0]), ValueOf(a, g[1]);
    if v0.None? || v1.None? || v1.value % 16 != 0 then None
    else
      SplitAfterJoinOne(v0.value, v1.value);
      assert g == [g[0], g[1]] + "==";
      Some([B0(v0.value, v1.value)])
  }

  /** Decodes a final group `xyz=` that carries two bytes. */
  function DecodeTwo(a: Alphabet, g: string): (r: Option<seq<byte>>)
    requires |g| == 4 && g[3] == '='
    ensures r.Some? ==> |r.value| == 2 && Encode(a, r.value) == g
  {
    var v0, v1, v2 := ValueOf(a, g[0]), ValueOf(a, g[1]), ValueOf(a, g[2]);
    if v0.None? || v1.None? || v2.None? || v2.value % 4 != 0 then None
    else
      SplitAfterJoinTwo(v0.value, v1.value, v2.value);
      assert g == [g[0], g[1], g[2]] + "=";
      Some([B0(v0.value, v1.value), B1(v1.value, v2.value)])
  }

  /** Decodes the last group, which may end in one or two `=`. */
  function DecodeLast(a: Alphabet, g: string): (r: Option<seq<byte>>)
    requires |g| == 4
    ensures r.Some? ==> 1 <= |r.value| <= 3 && Encode(a, r.value) == g
  {
    if g[2] == '=' && g[3] == '=' then DecodeOne(a, g)
    else if g[3] == '=' then DecodeTwo(a, g)
    else
      var r := DecodeGroup(a, g);
      if r.Some? then
        assert Encode(a, r.value) == EncodeGroup(a, r.value[0], r.value[1], r.value[2]) + Encode(a, r.value[3..]);
        r
      else r
  }

  /** Decodes a padded encoding; the unused low bits of a short final group
      must be zero, so only canonical encodings are accepted. */
  function Decode(a: Alphabet, s: string): (r: Option<seq<byte>>)
    ensures r.Some? ==> Encode(a, r.value) == s
    decreases |s|
  {
    if |s| == 0 then Some([])
    else if |s| < 4 then None
    else if |s| == 4 then DecodeLast(a, s)
    else
      match (DecodeGroup(a, s[..4]), Decode(a, s[4..]))
      case (Some(g), Some(rest)) =>
        assert (g + rest)[3..] == rest;
        assert s == s[..4] + s[4..];
        Some(g + rest)
      case _ => None
  }

  lemma DecodeGroupOfEncodeGroup(a: Alphabet, x: byte, y: byte, z: byte)
    ensures DecodeGroup(a, EncodeGroup(a, x, y, z)) == Some([x, y, z])
  {
    JoinAfterSplit(x, y, z);
    ValueOfCharOf(a, S0(x));
    ValueOfCharOf(a, S1(x, y));
    ValueOfCharOf(a, S2(y, z));
    ValueOfCharOf(a, S3(z));
  }

  lemma OneByteSplit(x: byte)
    ensures S1(x, 0) % 16 == 0 && B0(S0(x), S1(x, 0)) == x
  {
  }

  lemma TwoByteSplit(x: byte, y: byte)
    ensures S2(y, 0) % 4 == 0
    ensures B0(S0(x), S1(x, y)) == x && B1(S1(x, y), S2(y, 0)) == y
  {
  }

  lemma DecodeOfEncodeOne(a: Alphabet, b: seq<byte>)
    requires |b| == 1
    ensures Decode(a, Encode(a, b)) == Some(b)
  {
    var x := b[0];
    var c0, c1 := S0(x), S1(x, 0);
    OneByteSplit(x);
    ValueOfCharOf(a, c0);
    ValueOfCharOf(a, c1);
    var g := Encode(a, b);
    assert g == [CharOf(a, c0), CharOf(a, c1), '=', '='];
    assert DecodeOne(a, g) == Some([x]);
    assert [x] == b;
  }

  lemma DecodeOfEncodeTwo(a: Alphabet, b: seq<byte>)
    requires |b| == 2
    ensures Decode(a, Encode(a, b)) == Some(b)
  {
    var x, y := b[0], b[1];
    var c0, c1, c2 := S0(x), S1(x, y), S2(y, 0);
    TwoByteSplit(x, y);
    ValueOfCharOf(a, c0);
    ValueOfCharOf(a, c1);
    ValueOfCharOf(a, c2);
    var g := Encode(a, b);
    assert g == [CharOf(a, c0), CharOf(a, c1), CharOf(a, c2), '='];
    assert DecodeTwo(a, g) == Some([x, y]);
    assert [x, y] == b;
  }

  lemma DecodeOfEncodeThree(a: Alphabet, b: seq<byte>)
    requires |b| == 3
    ensures Decode(a, Encode(a, b)) == Some(b)
  {
    var x, y, z := b[0], b[1], b[2];
    var g := EncodeGroup(a, x, y, z);
    DecodeGroupOfEncodeGroup(a, x, y, z);
    ValueOfCharOf(a, S3(z));
    assert b[3..] == [];
    assert Encode(a, b) == g;
    assert DecodeLast(a, g) == DecodeGroup(a, g);
    assert [x, y, z] == b;
  }

  /** One step of `Decode` on an input longer than one group. */
  lemma DecodeUnfold(a: Alphabet, s: string)
    requires |s| > 4
    ensures Decode(a, s) == if DecodeGroup(a, s[..4]).Some? && Decode(a, s[4..]).Some?
                            then Some(DecodeGroup(a, s[..4]).value + Decode(a, s[4..]).value) else None
  {
  }

  lemma DecodeOfEncodeCons(a: Alphabet, b: seq<byte>)
    requires |b| > 3 && Decode(a, Encode(a, b[3..])) == Some(b[3..])
    ensures Decode(a, Encode(a, b)) == Some(b)
  {
    var g := EncodeGroup(a, b[0], b[1], b[2]);
    var e := Encode(a, b[3..]);
    var s := Encode(a, b);
    assert |s| > 4 && s[..4] == g && s[4..] == e by {
      assert s == g + e;
      assert |e| >= 4;
    }
    DecodeGroupOfEncodeGroup(a, b[0], b[1], b[2]);
    DecodeUnfold(a, s);
    FirstThree(b);
  }

  lemma FirstThree<T>(b: seq<T>)
    requires |b| >= 3
    ensures [b[0], b[1], b[2]] + b[3..] == b
  {
  }

  /** Decoding an encoding gives back the bytes. */
  lemma {:induction false} DecodeEncode(a: Alphabet, b: seq<byte>)
    ensures Decode(a, Encode(a, b)) == Some(b)
    decreases |b|
  {
    if |b| == 0 {
      assert Encode(a, b) == "";
    } else if |b| == 1 {
      DecodeOfEncodeOne(a, b);
    } else if |b| == 2 {
      DecodeOfEncodeTwo(a, b);
    } else if |b| == 3 {
      DecodeOfEncodeThree(a, b);
    } else {
      DecodeEncode(a, b[3..]);
      DecodeOfEncodeCons(a, b);
    }
  }

  /** The two directions together: `s` decodes to `b` exactly when `s` is the encoding of `b`. */
  lemma DecodeIffEncode(a: Alphabet, s: string, b: seq<byte>)
    ensures Decode(a, s) == Some(b) <==> Encode(a, b) == s
  {
    DecodeEncode(a, b);
  }

  // ---------------------------------------------------------------------
  // From the standard alphabet to the URL-safe one, and padding.

  /** The character substitution that turns the standard alphabet into the
      URL-safe one: `+` becomes `-` and `/` becomes `_`. */
  function ToUrlChar(c: char): char {
    if c == '+' then '-' else if c == '/' then '_' else c
  }

  /** The two alphabets differ exactly by that substitution, character by character. */
  lemma {:induction false} EncodeUrlSafeIsSubstituted(b: seq<byte>)
    ensures var e, u := Encode(Standard, b), Encode(UrlSafe, b);
      |u| == |e| && forall i :: 0 <= i < |e| ==> u[i] == ToUrlChar(e[i])
    decreases |b|
  {
    if |b| >= 3 {
      EncodeUrlSafeIsSubstituted(b[3..]);
    }
  }

  /** Replacing every `+` by `-` and then every `/` by `_` in the standard
      encoding gives the URL-safe encoding. */
  lemma StandardToUrlSafe(b: seq<byte>)
    ensures Text.ReplaceChar(Text.ReplaceChar(Encode(Standard, b), '+', '-'), '/', '_')
         == Encode(UrlSafe, b)
  {
    EncodeUrlSafeIsSubstituted(b);
  }

  /** How many `=` end the encoding of `n` bytes. */
  function PadLength(n: nat): nat {
    (3 - n % 3) % 3
  }

  /** `e` is `p` padding characters preceded only by non-padding characters. */
  predicate Padded(e: string, p: nat) {
    p <= |e| && e[|e| - p..] == Text.Repeat('=', p)
    && forall i :: 0 <= i < |e| - p ==> e[i] != '='
  }

  lemma PaddedCons(g: string, r: string, p: nat)
    requires forall i :: 0 <= i < |g| ==> g[i] != '='
    requires Padded(r, p)
    ensures Padded(g + r, p)
  {
    var e := g + r;
    assert e[|e| - p..] == r[|r| - p..];
    forall i | 0 <= i < |e| - p
      ensures e[i] != '='
    {
      if i >= |g| { assert e[i] == r[i - |g|]; }
    }
  }

  lemma GroupHasNoPad(a: Alphabet, x: byte, y: byte, z: byte)
    ensures forall i :: 0 <= i < 4 ==> EncodeGroup(a, x, y, z)[i] != '='
  {
    ValueOfCharOf(a, S0(x));
    ValueOfCharOf(a, S1(x, y));
    ValueOfCharOf(a, S2(y, z));
    ValueOfCharOf(a, S3(z));
  }

  lemma ShapeOne(a: Alphabet, b: seq<byte>)
    requires |b| == 1
    ensures Padded(Encode(a, b), PadLength(|b|))
  {
    var x := b[0];
    ValueOfCharOf(a, S0(x));
    ValueOfCharOf(a, S1(x, 0));
    var e := Encode(a, b);
    assert e == [CharOf(a, S0(x)), CharOf(a, S1(x, 0))] + "==";
    assert e[2..] == "==";
  }

  lemma ShapeTwo(a: Alphabet, b: seq<byte>)
    requires |b| == 2
    ensures Padded(Encode(a, b), PadLength(|b|))
  {
    var x, y := b[0], b[1];
    ValueOfCharOf(a, S0(x));
    ValueOfCharOf(a, S1(x, y));
    ValueOfCharOf(a, S2(y, 0));
    var e := Encode(a, b);
    assert e == [CharOf(a, S0(x)), CharOf(a, S1(x, y)), CharOf(a, S2(y, 0))] + "=";
    assert e[3..] == "=";
  }

  lemma ShapeCons(a: Alphabet, b: seq<byte>)
    requires |b| >= 3 && Padded(Encode(a, b[3..]), PadLength(|b[3..]|))
    ensures Padded(Encode(a, b), PadLength(|b|))
  {
    GroupHasNoPad(a, b[0], b[1], b[2]);
    assert PadLength(|b[3..]|) == PadLength(|b|);
    PaddedCons(EncodeGroup(a, b[0], b[1], b[2]), Encode(a, b[3..]), PadLength(|b|));
  }

  /** An encoding is digits followed by `PadLength` padding characters. */
  lemma {:induction false} EncodeShape(a: Alphabet, b: seq<byte>)
    ensures Padded(Encode(a, b), PadLength(|b|))
    decreases |b|
  {
    if |b| == 0 {
      assert Encode(a, b) == "";
    } else if |b| == 1 {
      ShapeOne(a, b);
    } else if |b| == 2 {
      ShapeTwo(a, b);
    } else {
      EncodeShape(a, b[3..]);
      ShapeCons(a, b);
    }
  }

  lemma PadArithmetic(n: nat)
    ensures var m := 4 * ((n + 2) / 3) - PadLength(n);
      m >= 0 && (4 - m % 4) % 4 == PadLength(n)
  {
    var q := n / 3;
    assert n == 3 * q + n % 3;
    if n % 3 == 0 {
      assert (n + 2) / 3 == q;
    } else {
      assert (n + 2) / 3 == q + 1;
    }
  }

  /** `s.replace(/=+$/, "")`: the encoding with its padding removed. */
  function Unpad(s: string): string {
    Text.DropTrailing(s, '=')
  }

  /** Restores the padding of an unpadded encoding, up to a multiple of four characters. */
  function Repad(s: string): (r: string)
    ensures |r| % 4 == 0
  {
    s + Text.Repeat('=', (4 - |s| % 4) % 4)
  }

  /** A padded string is its digits followed by the padding. */
  lemma SplitPadded(e: string, p: nat)
    requires Padded(e, p)
    ensures var x := e[..|e| - p];
      e == x + Text.Repeat('=', p) && (forall i :: 0 <= i < |x| ==> x[i] != '=')
  {
    var x := e[..|e| - p];
    assert e[|e| - p..] == Text.Repeat('=', p);
    assert e == x + e[|e| - p..];
  }

  lemma RepadExact(x: string, p: nat)
    requires (4 - |x| % 4) % 4 == p
    ensures Repad(x) == x + Text.Repeat('=', p)
  {
  }

  lemma RepadUnpadPadded(e: string, p: nat)
    requires Padded(e, p) && (4 - (|e| - p) % 4) % 4 == p
    ensures forall i :: 0 <= i < |Unpad(e)| ==> Unpad(e)[i] != '='
    ensures Repad(Unpad(e)) == e
  {
    var x := e[..|e| - p];
    SplitPadded(e, p);
    assert Unpad(e) == x by {
      Text.DropTrailingAfterRepeat(x, '=', p);
    }
    RepadExact(x, p);
  }

  /** Removing the padding leaves no `=` at all, and re-padding restores the encoding. */
  lemma RepadUnpad(a: Alphabet, b: seq<byte>)
    ensures forall i :: 0 <= i < |Unpad(Encode(a, b))| ==> Unpad(Encode(a, b))[i] != '='
    ensures Repad(Unpad(Encode(a, b))) == Encode(a, b)
  {
    EncodeShape(a, b);
    PadArithmetic(|b|);
    RepadUnpadPadded(Encode(a, b), PadLength(|b|));
  }
}
