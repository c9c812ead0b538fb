/** The character-substitution layer of `base64encode` and `base64decode`
    (script.js:52 and script.js:56). The standard base64 alphabet of section 4
    of RFC 4648 uses `+`, `/` and the pad `=`, which are not safe in a URL
    fragment; the page swaps them for `_`, `-` and `.`. */
module UrlSafe {
  import opened Text

  /** A character of the standard base64 alphabet, pad included. */
  predicate IsBase64Char(c: char) {
    ('A' <= c <= 'Z') || ('a' <= c <= 'z') || ('0' <= c <= '9') || c == '+' || c == '/' || c == '='
  }

  /** A character of the substituted alphabet. */
  predicate IsUrlSafeChar(c: char) {
    ('A' <= c <= 'Z') || ('a' <= c <= 'z') || ('0' <= c <= '9') || c == '_' || c == '-' || c == '.'
  }

  predicate IsBase64Text(s: string) {
    forall k :: 0 <= k < |s| ==> IsBase64Char(s[k])
  }

  predicate IsUrlSafeText(s: string) {
    forall k :: 0 <= k < |s| ==> IsUrlSafeChar(s[k])
  }

  /** `replaceAll("+", "_").replaceAll("/", "-").replaceAll("=", ".")`. */
  function ToUrlSafe(s: string): string
  {
    ReplaceAllChar(ReplaceAllChar(ReplaceAllChar(s, '+', "_"), '/', "-"), '=', ".")
  }

  /** `replaceAll("_", "+").replaceAll("-", "/").replaceAll(".", "=")`. */
  function FromUrlSafe(s: string): string
  {
    ReplaceAllChar(ReplaceAllChar(ReplaceAllChar(s, '_', "+"), '-', "/"), '.', "=")
  }

  function ToUrlSafeChar(c: char): char {
    if c == '+' then '_' else if c == '/' then '-' else if c == '=' then '.' else c
  }

  function FromUrlSafeChar(c: char): char {
    if c == '_' then '+' else if c == '-' then '/' else if c == '.' then '=' else c
  }

  lemma ToUrlSafePointwise(s: string)
    ensures |ToUrlSafe(s)| == |s|
    ensures forall k :: 0 <= k < |s| ==> ToUrlSafe(s)[k] == ToUrlSafeChar(s[k])
  {
    var r1 := ReplaceAllChar(s, '+', "_");
    var r2 := ReplaceAllChar(r1, '/', "-");
    ReplaceAllCharPointwise(s, '+', '_');
    ReplaceAllCharPointwise(r1, '/', '-');
    ReplaceAllCharPointwise(r2, '=', '.');
  }

  lemma FromUrlSafePointwise(s: string)
    ensures |FromUrlSafe(s)| == |s|
    ensures forall k :: 0 <= k < |s| ==> FromUrlSafe(s)[k] == FromUrlSafeChar(s[k])
  {
    var r1 := ReplaceAllChar(s, '_', "+");
    var r2 := ReplaceAllChar(r1, '-', "/");
    ReplaceAllCharPointwise(s, '_', '+');
    ReplaceAllCharPointwise(r1, '-', '/');
    ReplaceAllCharPointwise(r2, '.', '=');
  }

  /** Encoding maps base64 text into the URL-safe alphabet and decoding undoes it. */
  lemma EncodeRoundTrip(s: string)
    requires IsBase64Text(s)
    ensures IsUrlSafeText(ToUrlSafe(s))
    ensures FromUrlSafe(ToUrlSafe(s)) == s
  {
    ToUrlSafePointwise(s);
    FromUrlSafePointwise(ToUrlSafe(s));
  }

  /** Decoding maps URL-safe text back into the base64 alphabet and encoding undoes it. */
  lemma DecodeRoundTrip(t: string)
    requires IsUrlSafeText(t)
    ensures IsBase64Text(FromUrlSafe(t))
    ensures ToUrlSafe(FromUrlSafe(t)) == t
  {
    FromUrlSafePointwise(t);
    ToUrlSafePointwise(FromUrlSafe(t));
  }
}
