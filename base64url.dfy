/**
 * b64urlToBuf (clientes.js, categorias.js): a segment in the base64url
 * alphabet of section 5 of RFC 4648 is rewritten into the standard alphabet
 * and padded with '=' to a multiple of four characters before Buffer.from
 * decodes it. The decoding itself belongs to the platform (Jwt.Codec).
 */
module Base64Url {
  import opened Js

  /** `replace(/-/g, "+").replace(/_/g, "/")`, one character at a time */
  function UrlToStd(c: char): char {
    if c == '-' then '+' else if c == '_' then '/' else c
  }

  function StdToUrl(c: char): char {
    if c == '+' then '-' else if c == '/' then '_' else c
  }

  /** `b64.length % 4 ? 4 - (b64.length % 4) : 0` */
  function PadLength(n: nat): nat {
    if n % 4 != 0 then 4 - n % 4 else 0
  }

  function Repeat(c: char, n: nat): string {
    seq(n, _ => c)
  }

  /** The string b64urlToBuf hands to `Buffer.from(..., "base64")`. */
  function Normalize(s: string): string {
    var b64 := seq(|s|, i requires 0 <= i < |s| => UrlToStd(s[i]));
    b64 + Repeat('=', PadLength(|b64|))
  }

  predicate IsUrlAlphabet(c: char) {
    ('A' <= c <= 'Z') || ('a' <= c <= 'z') || ('0' <= c <= '9') || c == '-' || c == '_'
  }

  function StripPadding(s: string): string {
    if s != [] && s[|s| - 1] == '=' then StripPadding(s[..|s| - 1]) else s
  }

  /** Back from the padded standard alphabet to unpadded base64url. */
  function Denormalize(s: string): string {
    var t := StripPadding(s);
    seq(|t|, i requires 0 <= i < |t| => StdToUrl(t[i]))
  }

  /**
   * After normalisation there is no '-' and no '_', the length is a multiple
   * of four, at most three '=' were appended (none when the length already was
   * a multiple of four), and the original characters are kept in place, only
   * translated.
   */
  lemma NormalizeShape(s: string)
    ensures var r := Normalize(s);
      && '-' !in r && '_' !in r
      && |r| % 4 == 0
      && |s| <= |r| <= |s| + 3
      && (|s| % 4 == 0 ==> |r| == |s|)
      && (forall i :: 0 <= i < |s| ==> r[i] == UrlToStd(s[i]))
      && (forall i :: |s| <= i < |r| ==> r[i] == '=')
  {
    var r := Normalize(s);
    forall i | 0 <= i < |r| ensures r[i] != '-' && r[i] != '_' {
    }
  }

  lemma {:induction false} StripPaddingOf(t: string, n: nat)
    requires t == [] || t[|t| - 1] != '='
    ensures StripPadding(t + Repeat('=', n)) == t
  {
    if n > 0 {
      assert (t + Repeat('=', n))[..|t| + n - 1] == t + Repeat('=', n - 1);
      StripPaddingOf(t, n - 1);
    } else {
      assert t + Repeat('=', 0) == t;
    }
  }

  /** For a segment in the base64url alphabet, normalisation is undone exactly. */
  lemma RoundTrip(s: string)
    requires forall i :: 0 <= i < |s| ==> IsUrlAlphabet(s[i])
    ensures Denormalize(Normalize(s)) == s
  {
    var b64 := seq(|s|, i requires 0 <= i < |s| => UrlToStd(s[i]));
    StripPaddingOf(b64, PadLength(|b64|));
  }
}
