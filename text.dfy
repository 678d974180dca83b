/** The JavaScript string operations the handlers rely on: truthiness of an
    optional request field, `String.prototype.trim`, `.length` (which counts
    UTF-16 code units), `startsWith`, and `Array.prototype.join`. */
module Text {
  import opened Wrappers

  /** A request field is truthy when it was supplied and is not the empty string. */
  predicate Truthy(o: Option<string>) {
    o.Some? && o.value != ""
  }

  /** The code points ECMAScript calls WhiteSpace or LineTerminator:
      exactly the characters `trim` removes. */
  predicate IsSpace(c: char) {
    || c == '\t' || c == '\n' || c == '\U{000B}' || c == '\U{000C}' || c == '\r'
    || c == ' ' || c == '\U{00A0}' || c == '\U{1680}'
    || ('\U{2000}' <= c <= '\U{200A}')
    || c == '\U{2028}' || c == '\U{2029}' || c == '\U{202F}' || c == '\U{205F}'
    || c == '\U{3000}' || c == '\U{FEFF}'
  }

  predicate AllSpace(s: string) {
    forall i :: 0 <= i < |s| ==> IsSpace(s[i])
  }

  /** Drops leading white space: the result is the suffix of `s` that starts
      at its first non-space character. */
  function TrimStart(s: string): (r: string)
    ensures |r| <= |s| && r == s[|s| - |r|..]
    ensures r == [] || !IsSpace(r[0])
    ensures AllSpace(s[..|s| - |r|])
  {
    if |s| > 0 && IsSpace(s[0]) then
      var r := TrimStart(s[1..]);
      assert s[..|s| - |r|] == [s[0]] + s[1..][..|s| - 1 - |r|];
      AllSpaceCons(s[0], s[1..][..|s| - 1 - |r|]);
      r
    else s
  }

  /** Drops trailing white space: the prefix of `s` that ends at its last
      non-space character. */
  function TrimEnd(s: string): (r: string)
    ensures |r| <= |s| && r == s[..|r|]
    ensures r == [] || !IsSpace(r[|r| - 1])
    ensures AllSpace(s[|r|..])
  {
    if |s| > 0 && IsSpace(s[|s| - 1]) then
      var r := TrimEnd(s[..|s| - 1]);
      assert s[|r|..] == s[..|s| - 1][|r|..] + [s[|s| - 1]];
      AllSpaceSnoc(s[..|s| - 1][|r|..], s[|s| - 1]);
      r
    else s
  }

  lemma AllSpaceCons(c: char, t: string)
    requires IsSpace(c) && AllSpace(t)
    ensures AllSpace([c] + t)
  {
    var u := [c] + t;
    forall i | 0 <= i < |u| ensures IsSpace(u[i]) {
      if i > 0 { assert u[i] == t[i - 1]; }
    }
  }

  lemma AllSpaceSnoc(t: string, c: char)
    requires IsSpace(c) && AllSpace(t)
    ensures AllSpace(t + [c])
  {
    var u := t + [c];
    forall i | 0 <= i < |u| ensures IsSpace(u[i]) {
      if i < |t| { assert u[i] == t[i]; }
    }
  }

  /** `s.trim()`. */
  function Trim(s: string): (r: string)
    ensures r == [] || (!IsSpace(r[0]) && !IsSpace(r[|r| - 1]))
    ensures exists i, j :: 0 <= i <= j <= |s| && r == s[i..j] && AllSpace(s[..i]) && AllSpace(s[j..])
  {
    var t := TrimStart(s);
    var r := TrimEnd(t);
    TrimSlices(s, t, r);
    r
  }

  /** Where the two trimmed ends lie in `s`. */
  lemma TrimSlices(s: string, t: string, r: string)
    requires |t| <= |s| && t == s[|s| - |t|..] && AllSpace(s[..|s| - |t|])
    requires |r| <= |t| && r == t[..|r|] && AllSpace(t[|r|..])
    ensures var i, j := |s| - |t|, |s| - |t| + |r|;
      0 <= i <= j <= |s| && r == s[i..j] && AllSpace(s[..i]) && AllSpace(s[j..])
  {
    var i, j := |s| - |t|, |s| - |t| + |r|;
    assert r == s[i..j] by {
      assert t == s[i..] && r == t[..|r|];
    }
    assert s[j..] == t[|r|..] by {
      assert t == s[i..];
    }
  }

  /** A string trims to the empty string exactly when it is all white space. */
  lemma {:induction false} TrimEmptyIffAllSpace(s: string)
    ensures Trim(s) == "" <==> AllSpace(s)
  {
  }

  /** Trimming twice changes nothing more than trimming once. */
  lemma TrimIdempotent(s: string)
    ensures Trim(Trim(s)) == Trim(s)
  {
    var r := Trim(s);
    assert TrimStart(r) == r;
    assert TrimEnd(r) == r;
  }

  /** `s.length`: the number of UTF-16 code units, two for a code point above U+FFFF. */
  function Utf16Length(s: string): (n: nat)
    ensures |s| <= n <= 2 * |s|
  {
    if s == [] then 0
    else (if s[0] as int >= 0x1_0000 then 2 else 1) + Utf16Length(s[1..])
  }

  /** For text in the Basic Multilingual Plane `.length` is the number of characters. */
  lemma {:induction false} Utf16LengthOfBmp(s: string)
    requires forall i :: 0 <= i < |s| ==> s[i] as int < 0x1_0000
    ensures Utf16Length(s) == |s|
  {
    if s != [] {
      Utf16LengthOfBmp(s[1..]);
    }
  }

  /** `s.startsWith(prefix)`. */
  predicate StartsWith(s: string, prefix: string) {
    |prefix| <= |s| && s[..|prefix|] == prefix
  }

  /** `lines.join(sep)`. */
  function Join(lines: seq<string>, sep: string): string {
    if |lines| == 0 then ""
    else if |lines| == 1 then lines[0]
    else lines[0] + sep + Join(lines[1..], sep)
  }

  /** `s.replace(/from/g, to)` for a single character `from`. */
  function ReplaceChar(s: string, from: char, to: char): (r: string)
    ensures |r| == |s|
    ensures forall i :: 0 <= i < |s| ==> r[i] == if s[i] == from then to else s[i]
  {
    if s == [] then [] else [if s[0] == from then to else s[0]] + ReplaceChar(s[1..], from, to)
  }

  /** `s.replace(/c+$/, "")`: removes the run of `c` at the end of `s`. */
  function DropTrailing(s: string, c: char): (r: string)
    ensures |r| <= |s| && r == s[..|r|]
    ensures r == [] || r[|r| - 1] != c
    ensures forall i :: |r| <= i < |s| ==> s[i] == c
  {
    if |s| > 0 && s[|s| - 1] == c then DropTrailing(s[..|s| - 1], c) else s
  }

  /** `n` copies of `c`. */
  function Repeat(c: char, n: nat): (r: string)
    ensures |r| == n && forall i :: 0 <= i < n ==> r[i] == c
  {
    if n == 0 then [] else [c] + Repeat(c, n - 1)
  }

  /** Dropping a trailing run of `c` from `x + c...c` gives back `x` when `x` does not end in `c`. */
  lemma DropTrailingAfterRepeat(x: string, c: char, n: nat)
    requires x == [] || x[|x| - 1] != c
    ensures DropTrailing(x + Repeat(c, n), c) == x
  {
    var r := DropTrailing(x + Repeat(c, n), c);
    assert r == (x + Repeat(c, n))[..|x|] == x;
  }

  /** A request field as text together with what `Number(text)`, `parseInt(text)`
      or `new Date(text)` makes of it: `None` stands for NaN or an invalid date,
      which Mongoose refuses to cast when the value is saved or queried. */
  datatype Coerced = Coerced(text: string, value: Option<int>)

  /** A supplied coerced field is truthy when its text is not empty. */
  predicate Given(o: Option<Coerced>) {
    o.Some? && o.value.text != ""
  }

  /** The decimal digits of `n`, as `String(n)` or a template literal prints
      an integer. */
  function DecimalString(n: int): (r: string)
    ensures r != []
    decreases if n < 0 then 1 - n else n
  {
    if n < 0 then "-" + DecimalString(-n)
    else if n < 10 then [['0', '1', '2', '3', '4', '5', '6', '7', '8', '9'][n]]
    else DecimalString(n / 10) + DecimalString(n % 10)
  }

  /** The index of the first `c` in `s`, or `|s|` when there is none. */
  function IndexOf(s: string, c: char): (i: nat)
    ensures i <= |s| && (i < |s| ==> s[i] == c)
    ensures forall j :: 0 <= j < i ==> s[j] != c
  {
    if s == [] then 0 else if s[0] == c then 0 else 1 + IndexOf(s[1..], c)
  }

  /** A JSON request-body value of a field the schema stores as a Number. */
  datatype Json = JNumber(n: int) | JString(s: Coerced) | JNull | JOther

  /** JavaScript truthiness of such a value (objects and arrays are truthy). */
  predicate JTruthy(j: Json) {
    match j
    case JNumber(n) => n != 0
    case JString(c) => c.text != ""
    case JNull => false
    case JOther => true
  }

  /** Mongoose's cast to Number: `Ok(None)` stores null (from null or ""),
      `Err` is the CastError that fails the save or the query. */
  function CastNumber(j: Json): (r: Result<Option<int>, ()>)
    ensures j.JNumber? ==> r == Ok(Some(j.n))
    ensures r == Ok(None) <==> j == JNull || (j.JString? && j.s.text == "")
    ensures r.Err? <==> j.JOther? || (j.JString? && j.s.text != "" && j.s.value.None?)
  {
    match j
    case JNumber(n) => Ok(Some(n))
    case JString(c) => if c.text == "" then Ok(None) else if c.value.None? then Err(()) else Ok(c.value)
    case JNull => Ok(None)
    case JOther => Err(())
  }
}
