/** Data URLs of the form `data:<mediatype>;base64,<data>` (RFC 2397), as the
    handlers build them for profile pictures and cover images from an
    uploaded file's MIME type and bytes. */
module DataUrl {
  import opened Wrappers
  import opened Text
  import opened Base64

  const Scheme := "data:"
  const Marker := ";base64,"

  /** `data:${mimetype};base64,${buffer.toString("base64")}`. */
  function Make(mime: string, bytes: seq<byte>): (s: string)
    ensures StartsWith(s, Scheme)
    ensures |s| == |Scheme| + |mime| + |Marker| + 4 * ((|bytes| + 2) / 3)
  {
    Scheme + mime + Marker + Encode(Standard, bytes)
  }

  /** Reads a data URL back: the media type up to the first `;`, then the
      `;base64,` marker, then canonical base64 text. */
  function Parse(s: string): (r: Option<(string, seq<byte>)>)
    ensures r.Some? ==> Make(r.value.0, r.value.1) == s
  {
    if !StartsWith(s, Scheme) then None
    else
      var rest := s[|Scheme|..];
      var k := IndexOf(rest, ';');
      if !StartsWith(rest[k..], Marker) then None
      else
        match Decode(Standard, rest[k + |Marker|..])
        case None => None
        case Some(bytes) =>
          Reassemble(s, k);
          Some((rest[..k], bytes))
  }

  /** A string that starts with the scheme and carries the marker at offset
      `k` after it is the scheme, the media type, the marker and the data. */
  lemma Reassemble(s: string, k: nat)
    requires StartsWith(s, Scheme) && k <= |s| - |Scheme|
    requires StartsWith(s[|Scheme|..][k..], Marker)
    ensures var rest := s[|Scheme|..];
      s == Scheme + rest[..k] + Marker + rest[k + |Marker|..]
  {
    var rest := s[|Scheme|..];
    assert s == Scheme + rest;
    assert rest[k..] == Marker + rest[k + |Marker|..];
    assert rest == rest[..k] + rest[k..];
  }

  /** A data URL built from a media type without `;` reads back as that type and those bytes. */
  lemma ParseMake(mime: string, bytes: seq<byte>)
    requires forall i :: 0 <= i < |mime| ==> mime[i] != ';'
    ensures Parse(Make(mime, bytes)) == Some((mime, bytes))
  {
    var s := Make(mime, bytes);
    var rest := s[|Scheme|..];
    assert rest == mime + Marker + Encode(Standard, bytes);
    assert rest[|mime|..] == Marker + Encode(Standard, bytes);
    assert rest[|mime|] == ';';
    assert forall j :: 0 <= j < |mime| ==> rest[j] == mime[j];
    assert IndexOf(rest, ';') == |mime|;
    assert rest[..|mime|] == mime;
    assert StartsWith(rest[|mime|..], Marker);
    assert rest[|mime| + |Marker|..] == Encode(Standard, bytes);
    DecodeEncode(Standard, bytes);
  }
}
