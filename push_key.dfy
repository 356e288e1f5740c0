/** The conversion of the VAPID application-server key (RFC 8292) from its
    base64url text form (RFC 4648 section 5) to the bytes the browser's push
    manager takes: restore the padding, move to the standard alphabet of RFC
    4648 section 4, decode, and copy the decoded characters into a byte array.
    The decoder is the browser's `atob`, given as a parameter; None stands for
    the error it throws on malformed input. */
module PushKey {
  import opened JsValues

  newtype byte = x: int | 0 <= x < 256

  /** `(4 - (length % 4)) % 4`, with the length in UTF-16 code units. */
  function Padding(s: string): (p: nat)
    ensures p <= 3
    ensures (Utf16Length(s) + p) % 4 == 0
    ensures Utf16Length(s) % 4 == 0 <==> p == 0
  {
    (4 - Utf16Length(s) % 4) % 4
  }

  function Repeat(c: char, n: nat): (r: string)
    ensures |r| == n && forall i :: 0 <= i < n ==> r[i] == c
  {
    if n == 0 then "" else [c] + Repeat(c, n - 1)
  }

  /** `.replace(/-/g, '+').replace(/_/g, '/')` */
  function ToStandardAlphabet(s: string): (r: string)
    ensures |r| == |s|
    ensures forall i :: 0 <= i < |s| ==>
      r[i] == (if s[i] == '-' then '+' else if s[i] == '_' then '/' else s[i])
  {
    if s == [] then ""
    else [if s[0] == '-' then '+' else if s[0] == '_' then '/' else s[0]] + ToStandardAlphabet(s[1..])
  }

  /** The reverse move, from the standard alphabet to the URL-safe one. */
  function ToUrlAlphabet(s: string): (r: string)
    ensures |r| == |s|
    ensures forall i :: 0 <= i < |s| ==>
      r[i] == (if s[i] == '+' then '-' else if s[i] == '/' then '_' else s[i])
  {
    if s == [] then ""
    else [if s[0] == '+' then '-' else if s[0] == '/' then '_' else s[0]] + ToUrlAlphabet(s[1..])
  }

  /** The two alphabets differ in exactly these two characters: text of the
      URL-safe alphabet (no '+' or '/') comes back unchanged, and the standard
      form holds no '-' or '_'. */
  lemma {:induction false} AlphabetRoundTrip(s: string)
    requires forall i :: 0 <= i < |s| ==> s[i] != '+' && s[i] != '/'
    ensures ToUrlAlphabet(ToStandardAlphabet(s)) == s
    ensures forall i :: 0 <= i < |s| ==> ToStandardAlphabet(s)[i] != '-' && ToStandardAlphabet(s)[i] != '_'
  {
    var b := ToStandardAlphabet(s);
    var u := ToUrlAlphabet(b);
    forall i | 0 <= i < |s| ensures u[i] == s[i] {
      assert u[i] == (if b[i] == '+' then '-' else if b[i] == '/' then '_' else b[i]);
    }
  }

  /** The text handed to `atob`. */
  function StandardForm(s: string): (b: string)
    ensures |b| == |s| + Padding(s)
    ensures b[..|s|] == ToStandardAlphabet(s)
    ensures forall i :: |s| <= i < |b| ==> b[i] == '='
  {
    ToStandardAlphabet(s + Repeat('=', Padding(s)))
  }

  /** A key whose length is already a multiple of four gets no padding. */
  lemma NoPaddingForFullQuanta(s: string)
    requires Utf16Length(s) % 4 == 0
    ensures StandardForm(s) == ToStandardAlphabet(s)
  {
  }

  /** `outputArray[i] = rawData.charCodeAt(i)`: a Uint8Array keeps the code
      modulo 256; every character `atob` yields is below 256. */
  function ByteOf(c: char): (b: byte)
    ensures (c as int) < 256 ==> b as int == c as int
  {
    ((c as int) % 256) as byte
  }

  function Bytes(raw: string): (r: seq<byte>)
    ensures |r| == |raw| && forall i :: 0 <= i < |raw| ==> r[i] == ByteOf(raw[i])
  {
    if raw == [] then [] else [ByteOf(raw[0])] + Bytes(raw[1..])
  }

  /** `urlBase64ToUint8Array`: a fresh array as long as the decoded text,
      byte `i` holding the code of its character `i`. */
  method UrlBase64ToUint8Array(s: string, atob: string -> Option<string>) returns (out: Option<array<byte>>)
    ensures atob(StandardForm(s)).None? ==> out.None?
    ensures atob(StandardForm(s)).Some? ==>
      && out.Some? && fresh(out.value)
      && out.value.Length == |atob(StandardForm(s)).value|
      && out.value[..] == Bytes(atob(StandardForm(s)).value)
  {
    var decoded := atob(StandardForm(s));
    if decoded.None? {
      return None;
    }
    var raw := decoded.value;
    var a := new byte[|raw|];
    for i := 0 to |raw|
      invariant forall k :: 0 <= k < i ==> a[k] == ByteOf(raw[k])
    {
      a[i] := ByteOf(raw[i]);
    }
    return Some(a);
  }
}
