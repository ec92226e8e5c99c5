/**
 * verifySupabaseAccessToken and parseJwt, written out identically in
 * clientes.js and categorias.js: a compact JWS (section 7.1 of RFC 7515) is
 * split at its dots, header and payload are decoded, and the checks run in a
 * fixed order: algorithm RS256 (section 3.3 of RFC 7518), a key id, expiry
 * (section 4.1.4 of RFC 7519), issuer (section 4.1.1 of RFC 7519), a key with
 * that id in the fetched key set, and the signature.
 *
 * What the platform does is a parameter: the base64 and UTF-8 decoders and
 * JSON.parse (Codec), the outcome of fetching the key set, the clock, and the
 * RSA-SHA256 check of crypto.verify (RsaVerify).
 */
module Jwt {
  import opened Js
  import Base64Url

  /**
   * Buffer.from(x, "base64") (lenient, it never throws), buffer.toString("utf8")
   * and JSON.parse, None when JSON.parse throws.
   */
  datatype Codec = Codec(
    base64: string -> seq<byte>,
    utf8: seq<byte> -> string,
    json: string -> Option<JsValue>)

  /**
   * crypto.createPublicKey on the JWK followed by crypto.verify("RSA-SHA256")
   * over the UTF-8 bytes of the signing input: None when either throws.
   */
  type RsaVerify = (string, JsValue, seq<byte>) -> Option<bool>

  /** Why a token was refused; each is a distinct throw in the source. */
  datatype TokenError =
    | MalformedJwt        // "Malformed JWT"
    | InvalidJson         // JSON.parse of header or payload threw
    | NullAccess          // a property read on null threw a TypeError
    | UnexpectedAlg       // "Unexpected alg"
    | MissingKid          // "Missing kid"
    | TokenExpired        // "Token expired"
    | InvalidIssuer       // "Invalid issuer"
    | KeySetUnavailable   // "Failed to fetch JWKS", or fetch / r.json() threw
    | BadKeySet           // jwks.keys (or an entry of it) could not be searched
    | UnknownKid          // "Unknown kid"
    | KeyRejected         // createPublicKey or crypto.verify threw
    | BadSignature        // "Bad signature"

  datatype Parsed = Parsed(header: JsValue, payload: JsValue, signature: seq<byte>, signingInput: string)

  /** `JSON.parse(b64urlToBuf(seg).toString("utf8"))` */
  function DecodeJson(codec: Codec, seg: string): Option<JsValue> {
    codec.json(codec.utf8(codec.base64(Base64Url.Normalize(seg))))
  }

  /** Element i of `token.split(".")`, "" standing for undefined (both are falsy). */
  function Segment(parts: seq<string>, i: nat): string {
    if i < |parts| then parts[i] else ""
  }

  predicate WellFormedSegments(token: string) {
    var parts := Split(token, '.');
    Segment(parts, 0) != "" && Segment(parts, 1) != "" && Segment(parts, 2) != ""
  }

  /** parseJwt */
  function ParseJwt(codec: Codec, token: string): Result<Parsed, TokenError> {
    var parts := Split(token, '.');
    var h, p, s := Segment(parts, 0), Segment(parts, 1), Segment(parts, 2);
    if h == "" || p == "" || s == "" then Err(MalformedJwt)
    else match DecodeJson(codec, h)
      case None => Err(InvalidJson)
      case Some(header) =>
        match DecodeJson(codec, p)
        case None => Err(InvalidJson)
        case Some(payload) =>
          Ok(Parsed(header, payload, codec.base64(Base64Url.Normalize(s)), h + "." + p))
  }

  /** `${SUPABASE_URL}/auth/v1`; an unset variable prints as "undefined". */
  function ExpectedIssuer(supabaseUrl: Option<string>): string {
    (if supabaseUrl.None? then "undefined" else supabaseUrl.value) + "/auth/v1"
  }

  /** `now >= exp`: exp is converted to a number; a comparison with NaN is false. */
  predicate AtOrAfter(now: int, exp: JsValue) {
    match ToNumber(exp)
    case None => false
    case Some(n) => now >= n
  }

  /** `payload.exp && now >= payload.exp` */
  predicate Expired(payload: JsValue, now: int) {
    var exp := Get(payload, "exp");
    Truthy(exp) && AtOrAfter(now, exp.value)
  }

  /** The checks made before the key set is fetched, in source order; None when all pass. */
  function ClaimCheck(parsed: Parsed, supabaseUrl: Option<string>, now: int): Option<TokenError> {
    var header, payload := parsed.header, parsed.payload;
    if header.Null? then Some(NullAccess)
    else if Get(header, "alg") != Some(Str("RS256")) then Some(UnexpectedAlg)
    else if !Truthy(Get(header, "kid")) then Some(MissingKid)
    else if payload.Null? then Some(NullAccess)
    else if Expired(payload, now) then Some(TokenExpired)
    else if Get(payload, "iss") != Some(Str(ExpectedIssuer(supabaseUrl))) then Some(InvalidIssuer)
    else None
  }

  /**
   * `jwks.keys || []` ready for `.find`: a truthy `keys` that is not an array
   * has no find method, an array's own `keys` is Array.prototype.keys (a
   * function, so again no find), and null has no properties at all.
   */
  function KeysOf(jwks: JsValue): Result<seq<JsValue>, TokenError> {
    match jwks
    case Null => Err(NullAccess)
    case Arr(_) => Err(BadKeySet)
    case Obj(_) =>
      var keys := Get(jwks, "keys");
      if !Truthy(keys) then Ok([])
      else if keys.value.Arr? then Ok(keys.value.items)
      else Err(BadKeySet)
    case _ => Ok([])
  }

  /** `keys.find((k) => k.kid === kid)`; a null entry met before the match throws. */
  function FindKey(keys: seq<JsValue>, kid: Option<JsValue>): Result<Option<JsValue>, TokenError> {
    if keys == [] then Ok(None)
    else if keys[0].Null? then Err(NullAccess)
    else if StrictEquals(Get(keys[0], "kid"), kid) then Ok(Some(keys[0]))
    else FindKey(keys[1..], kid)
  }

  /** Key lookup and signature check, made after every claim check passed. */
  function KeyCheck(parsed: Parsed, jwks: Option<JsValue>, rsa: RsaVerify): Result<JsValue, TokenError> {
    if jwks.None? then Err(KeySetUnavailable)
    else match KeysOf(jwks.value)
      case Err(e) => Err(e)
      case Ok(keys) =>
        match FindKey(keys, Get(parsed.header, "kid"))
        case Err(e) => Err(e)
        case Ok(None) => Err(UnknownKid)
        case Ok(Some(key)) =>
          match rsa(parsed.signingInput, key, parsed.signature)
          case None => Err(KeyRejected)
          case Some(false) => Err(BadSignature)
          case Some(true) => Ok(parsed.payload)
  }

  /** Whether the key set is fetched at all: parsing and every claim check passed. */
  predicate FetchesKeySet(codec: Codec, token: string, supabaseUrl: Option<string>, now: int) {
    var p := ParseJwt(codec, token);
    p.Ok? && ClaimCheck(p.value, supabaseUrl, now).None?
  }

  /**
   * verifySupabaseAccessToken: the payload, or the first failing check.
   * `jwks` is what getJwks returned when it was called (None when it threw).
   */
  function Verify(codec: Codec, rsa: RsaVerify, token: string, supabaseUrl: Option<string>,
                  now: int, jwks: Option<JsValue>): Result<JsValue, TokenError>
  {
    match ParseJwt(codec, token)
    case Err(e) => Err(e)
    case Ok(parsed) =>
      match ClaimCheck(parsed, supabaseUrl, now)
      case Some(e) => Err(e)
      case None => KeyCheck(parsed, jwks, rsa)
  }

  // ----- parseJwt -----

  /**
   * parseJwt throws "Malformed JWT" exactly when the first, second or third
   * dot-separated segment is missing or empty, before anything is decoded.
   */
  lemma MalformedIff(codec: Codec, token: string)
    ensures var parts := Split(token, '.');
      ParseJwt(codec, token) == Err(MalformedJwt)
      <==> |parts| < 3 || parts[0] == "" || parts[1] == "" || parts[2] == ""
  {
  }

  /**
   * On success the signing input is the first two segments of the original
   * string joined by their dot, unchanged (never re-encoded), and it is
   * followed by a dot in the token; header, payload and signature are the
   * decodings of the three segments.
   */
  lemma SigningInputIsOriginal(codec: Codec, token: string)
    requires ParseJwt(codec, token).Ok?
    ensures var parts, parsed := Split(token, '.'), ParseJwt(codec, token).value;
      && |parts| >= 3
      && parsed.signingInput == parts[0] + "." + parts[1]
      && parsed.signingInput + "." <= token
      && Some(parsed.header) == DecodeJson(codec, parts[0])
      && Some(parsed.payload) == DecodeJson(codec, parts[1])
      && parsed.signature == codec.base64(Base64Url.Normalize(parts[2]))
  {
    SplitFirstTwo(token, '.');
  }

  /**
   * A token assembled from three non-empty dot-free segments and any rest that
   * is empty or starts with a dot parses with exactly those segments: segments
   * after the third are ignored.
   */
  lemma AssembledToken(codec: Codec, h: string, p: string, s: string, rest: string)
    requires h != "" && p != "" && s != ""
    requires '.' !in h && '.' !in p && '.' !in s
    requires rest == "" || rest[0] == '.'
    ensures var token := h + "." + p + "." + s + rest;
      && var parts := Split(token, '.');
      && |parts| >= 3 && parts[0] == h && parts[1] == p && parts[2] == s
      && (ParseJwt(codec, token).Ok? <==> DecodeJson(codec, h).Some? && DecodeJson(codec, p).Some?)
      && (ParseJwt(codec, token).Ok? ==> ParseJwt(codec, token).value.signingInput == h + "." + p)
  {
    var token := h + "." + p + "." + s + rest;
    var tail := s + rest;
    if rest == "" {
      SplitWithoutSep(s, '.');
      assert tail == s;
    } else {
      SplitAfterPiece(s, '.', rest[1..]);
      assert tail == s + ['.'] + rest[1..];
    }
    SplitAfterPiece(p, '.', tail);
    SplitAfterPiece(h, '.', p + "." + tail);
    assert token == h + ['.'] + (p + ['.'] + tail);
  }

  // ----- the check sequence -----

  predicate HeaderAccepted(header: JsValue) {
    !header.Null? && Get(header, "alg") == Some(Str("RS256")) && Truthy(Get(header, "kid"))
  }

  predicate ClaimsAccepted(parsed: Parsed, supabaseUrl: Option<string>, now: int) {
    && HeaderAccepted(parsed.header)
    && !parsed.payload.Null?
    && !Expired(parsed.payload, now)
    && Get(parsed.payload, "iss") == Some(Str(ExpectedIssuer(supabaseUrl)))
  }

  lemma ClaimCheckPasses(parsed: Parsed, supabaseUrl: Option<string>, now: int)
    ensures ClaimCheck(parsed, supabaseUrl, now).None? <==> ClaimsAccepted(parsed, supabaseUrl, now)
  {
  }

  /**
   * When parsing or a claim check fails, the key set and the signature check
   * play no part: any fetched key set and any verifier give the same result.
   */
  lemma RejectedBeforeKeySet(codec: Codec, rsa1: RsaVerify, rsa2: RsaVerify, token: string,
                             supabaseUrl: Option<string>, now: int, jwks1: Option<JsValue>, jwks2: Option<JsValue>)
    requires !FetchesKeySet(codec, token, supabaseUrl, now)
    ensures Verify(codec, rsa1, token, supabaseUrl, now, jwks1) == Verify(codec, rsa2, token, supabaseUrl, now, jwks2)
    ensures Verify(codec, rsa1, token, supabaseUrl, now, jwks1).Err?
  {
  }

  /**
   * An `alg` other than exactly "RS256" and a missing or falsy `kid` are
   * refused before the key set is fetched or a signature checked.
   */
  lemma AlgAndKidFirst(codec: Codec, rsa: RsaVerify, token: string, supabaseUrl: Option<string>,
                       now: int, jwks: Option<JsValue>)
    requires ParseJwt(codec, token).Ok?
    requires !ParseJwt(codec, token).value.header.Null?
    ensures var header := ParseJwt(codec, token).value.header;
      && (Get(header, "alg") != Some(Str("RS256")) ==>
            Verify(codec, rsa, token, supabaseUrl, now, jwks) == Err(UnexpectedAlg))
      && (Get(header, "alg") == Some(Str("RS256")) && !Truthy(Get(header, "kid")) ==>
            Verify(codec, rsa, token, supabaseUrl, now, jwks) == Err(MissingKid))
      && (!HeaderAccepted(header) ==> !FetchesKeySet(codec, token, supabaseUrl, now))
  {
  }

  /**
   * Expiry: once the header is accepted, the token is refused as expired
   * exactly when `exp` is truthy and now >= exp; without a (truthy) `exp`
   * it is never refused as expired.
   */
  lemma ExpiryRule(codec: Codec, rsa: RsaVerify, token: string, supabaseUrl: Option<string>,
                   now: int, jwks: Option<JsValue>)
    requires ParseJwt(codec, token).Ok?
    requires HeaderAccepted(ParseJwt(codec, token).value.header)
    requires !ParseJwt(codec, token).value.payload.Null?
    ensures var payload := ParseJwt(codec, token).value.payload;
      && (Verify(codec, rsa, token, supabaseUrl, now, jwks) == Err(TokenExpired) <==> Expired(payload, now))
      && (!Truthy(Get(payload, "exp")) ==> Verify(codec, rsa, token, supabaseUrl, now, jwks) != Err(TokenExpired))
      && (forall n :: Get(payload, "exp") == Some(Num(n)) && n != 0 ==>
            (Verify(codec, rsa, token, supabaseUrl, now, jwks) == Err(TokenExpired) <==> now >= n))
  {
    var parsed := ParseJwt(codec, token).value;
    if !Expired(parsed.payload, now) {
      KeyCheckErrors(parsed, jwks, rsa);
    }
  }

  lemma KeyCheckErrors(parsed: Parsed, jwks: Option<JsValue>, rsa: RsaVerify)
    ensures KeyCheck(parsed, jwks, rsa).Err? ==>
      KeyCheck(parsed, jwks, rsa).error in {KeySetUnavailable, NullAccess, BadKeySet, UnknownKid, KeyRejected, BadSignature}
    ensures KeyCheck(parsed, jwks, rsa).Ok? ==> KeyCheck(parsed, jwks, rsa).value == parsed.payload
  {
    if jwks.Some? && KeysOf(jwks.value).Ok? {
      FindKeyErrors(KeysOf(jwks.value).value, Get(parsed.header, "kid"));
    }
  }

  lemma {:induction false} FindKeyErrors(keys: seq<JsValue>, kid: Option<JsValue>)
    ensures FindKey(keys, kid).Err? ==> FindKey(keys, kid).error == NullAccess
  {
    if keys != [] && !keys[0].Null? && !StrictEquals(Get(keys[0], "kid"), kid) {
      FindKeyErrors(keys[1..], kid);
    }
  }

  /**
   * find: the key found is the first entry whose `kid` is strictly equal to
   * the header's, every entry before it being a non-null non-match; no key
   * is found exactly when no entry matches and none is null.
   */
  lemma {:induction false} FindKeyFirst(keys: seq<JsValue>, kid: Option<JsValue>)
    ensures FindKey(keys, kid).Ok? && FindKey(keys, kid).value.Some? ==>
      exists i :: FirstMatch(keys, kid, i) && keys[i] == FindKey(keys, kid).value.value
    ensures FindKey(keys, kid) == Ok(None) <==> NoMatch(keys, kid)
  {
    if keys != [] && !keys[0].Null? && StrictEquals(Get(keys[0], "kid"), kid) {
      assert FirstMatch(keys, kid, 0);
    } else if keys != [] && !keys[0].Null? {
      FindKeyFirst(keys[1..], kid);
      if FindKey(keys, kid).Ok? && FindKey(keys, kid).value.Some? {
        var i :| FirstMatch(keys[1..], kid, i) && keys[1..][i] == FindKey(keys, kid).value.value;
        assert keys[i + 1] == keys[1..][i];
        forall j | 0 <= j < i + 1 ensures !keys[j].Null? && !StrictEquals(Get(keys[j], "kid"), kid) {
          if j > 0 { assert keys[j] == keys[1..][j - 1]; }
        }
        assert FirstMatch(keys, kid, i + 1);
      }
      if NoMatch(keys[1..], kid) {
        forall j | 0 <= j < |keys| ensures !keys[j].Null? && !StrictEquals(Get(keys[j], "kid"), kid) {
          if j > 0 { assert keys[j] == keys[1..][j - 1]; }
        }
      }
    }
  }

  /** Entry i is the one `find` returns: a non-null match, every entry before it a non-null non-match. */
  predicate FirstMatch(keys: seq<JsValue>, kid: Option<JsValue>, i: int) {
    && 0 <= i < |keys|
    && !keys[i].Null?
    && StrictEquals(Get(keys[i], "kid"), kid)
    && forall j :: 0 <= j < i ==> !keys[j].Null? && !StrictEquals(Get(keys[j], "kid"), kid)
  }

  /** Every entry is a non-null non-match: `find` returns undefined. */
  predicate NoMatch(keys: seq<JsValue>, kid: Option<JsValue>) {
    forall j :: 0 <= j < |keys| ==> !keys[j].Null? && !StrictEquals(Get(keys[j], "kid"), kid)
  }

  /** Entry i is null and every entry before it is a non-null non-match: the callback throws on it. */
  predicate NullFirst(keys: seq<JsValue>, kid: Option<JsValue>, i: int) {
    && 0 <= i < |keys|
    && keys[i].Null?
    && forall j :: 0 <= j < i ==> !keys[j].Null? && !StrictEquals(Get(keys[j], "kid"), kid)
  }

  ghost predicate NullBeforeMatch(keys: seq<JsValue>, kid: Option<JsValue>) {
    exists i :: 0 <= i < |keys| && NullFirst(keys, kid, i)
  }

  /** The search throws exactly when it meets a null entry before any match. */
  lemma {:induction false} FindKeyNull(keys: seq<JsValue>, kid: Option<JsValue>)
    ensures FindKey(keys, kid) == Err(NullAccess) <==> NullBeforeMatch(keys, kid)
  {
    if keys == [] {
    } else if keys[0].Null? {
      assert NullFirst(keys, kid, 0);
    } else if StrictEquals(Get(keys[0], "kid"), kid) {
      forall i | 0 <= i < |keys| ensures !NullFirst(keys, kid, i) {
        if i > 0 {
          assert !(!keys[0].Null? && !StrictEquals(Get(keys[0], "kid"), kid));
        }
      }
    } else {
      var tail := keys[1..];
      FindKeyNull(tail, kid);
      if NullBeforeMatch(tail, kid) {
        var i :| 0 <= i < |tail| && NullFirst(tail, kid, i);
        assert keys[i + 1] == tail[i];
        forall j | 0 <= j < i + 1 ensures !keys[j].Null? && !StrictEquals(Get(keys[j], "kid"), kid) {
          if j > 0 { assert keys[j] == tail[j - 1]; }
        }
        assert NullFirst(keys, kid, i + 1);
      }
      if NullBeforeMatch(keys, kid) {
        var i :| 0 <= i < |keys| && NullFirst(keys, kid, i);
        assert i > 0;
        assert tail[i - 1] == keys[i];
        forall j | 0 <= j < i - 1 ensures !tail[j].Null? && !StrictEquals(Get(tail[j], "kid"), kid) {
          assert tail[j] == keys[j + 1];
          assert 0 <= j + 1 < i;
        }
        assert NullFirst(tail, kid, i - 1);
      }
    }
  }

  /**
   * The key step before the signature check: no key set; a null `jwks`, or a
   * null entry met before a match; a `keys` that cannot be searched; no match.
   */
  lemma KeyLookupOutcomes(parsed: Parsed, jwks: Option<JsValue>, rsa: RsaVerify)
    ensures var r, kid := KeyCheck(parsed, jwks, rsa), Get(parsed.header, "kid");
      && (r == Err(KeySetUnavailable) <==> jwks.None?)
      && (r == Err(BadKeySet) <==> jwks.Some? && KeysOf(jwks.value) == Err(BadKeySet))
      && (r == Err(NullAccess) <==>
            jwks.Some? && (jwks.value.Null? || (KeysOf(jwks.value).Ok? && NullBeforeMatch(KeysOf(jwks.value).value, kid))))
      && (r == Err(UnknownKid) <==> (jwks.Some? && KeysOf(jwks.value).Ok? && NoMatch(KeysOf(jwks.value).value, kid)))
  {
    if jwks.Some? && KeysOf(jwks.value).Ok? {
      var keys, kid := KeysOf(jwks.value).value, Get(parsed.header, "kid");
      FindKeyFirst(keys, kid);
      FindKeyErrors(keys, kid);
      FindKeyNull(keys, kid);
    }
  }

  /**
   * The signature check on the first match: createPublicKey or crypto.verify
   * refusing the key, a signature that does not verify, or the payload.
   */
  lemma SignatureOutcomes(parsed: Parsed, jwks: Option<JsValue>, rsa: RsaVerify)
    ensures var r, kid := KeyCheck(parsed, jwks, rsa), Get(parsed.header, "kid");
      && (r == Err(KeyRejected) <==> (jwks.Some? && KeysOf(jwks.value).Ok?
            && exists i :: FirstMatch(KeysOf(jwks.value).value, kid, i)
                 && rsa(parsed.signingInput, KeysOf(jwks.value).value[i], parsed.signature).None?))
      && (r == Err(BadSignature) <==> (jwks.Some? && KeysOf(jwks.value).Ok?
            && exists i :: FirstMatch(KeysOf(jwks.value).value, kid, i)
                 && rsa(parsed.signingInput, KeysOf(jwks.value).value[i], parsed.signature) == Some(false)))
  {
    if jwks.Some? && KeysOf(jwks.value).Ok? {
      var keys, kid := KeysOf(jwks.value).value, Get(parsed.header, "kid");
      FindKeyFirst(keys, kid);
      FindKeyErrors(keys, kid);
      if exists i :: FirstMatch(keys, kid, i) {
        var i :| FirstMatch(keys, kid, i);
        FindKeyAt(keys, kid, i);
      }
    }
  }

  /** `jwks.keys || []` fails on a null key set, and is not searchable for an array or a non-array `keys`. */
  lemma KeysOfErrors(jwks: JsValue)
    ensures KeysOf(jwks) == Err(NullAccess) <==> jwks.Null?
    ensures KeysOf(jwks) == Err(BadKeySet) <==>
      jwks.Arr? || (jwks.Obj? && Truthy(Get(jwks, "keys")) && !Get(jwks, "keys").value.Arr?)
  {
  }

  /**
   * Success requires every check: a well-formed token whose header says RS256
   * and carries a kid, an unexpired payload from `${SUPABASE_URL}/auth/v1`, a
   * fetched key that is the first whose kid equals the header's, and a signature that this key
   * verifies over the original "header.payload" text. The payload comes back
   * unchanged, and it is an object.
   */
  lemma VerifiedMeans(codec: Codec, rsa: RsaVerify, token: string, supabaseUrl: Option<string>,
                      now: int, jwks: Option<JsValue>)
    requires Verify(codec, rsa, token, supabaseUrl, now, jwks).Ok?
    ensures var parts, payload := Split(token, '.'), Verify(codec, rsa, token, supabaseUrl, now, jwks).value;
      && ParseJwt(codec, token).Ok?
      && var parsed := ParseJwt(codec, token).value;
      && |parts| >= 3 && parts[0] != "" && parts[1] != "" && parts[2] != ""
      && payload == parsed.payload && Some(payload) == DecodeJson(codec, parts[1])
      && payload.Obj?
      && ClaimsAccepted(parsed, supabaseUrl, now)
      && jwks.Some? && KeysOf(jwks.value).Ok?
      && exists i :: FirstMatch(KeysOf(jwks.value).value, Get(parsed.header, "kid"), i)
           && rsa(parts[0] + "." + parts[1], KeysOf(jwks.value).value[i], parsed.signature) == Some(true)
  {
    var parsed := ParseJwt(codec, token).value;
    SigningInputIsOriginal(codec, token);
    KeyCheckErrors(parsed, jwks, rsa);
    var keys := KeysOf(jwks.value).value;
    var kid := Get(parsed.header, "kid");
    FindKeyFirst(keys, kid);
  }

  /**
   * Conversely, when every check passes and the first key with the header's
   * kid verifies the signature, the payload is returned.
   */
  lemma AcceptedWhenAllPass(codec: Codec, rsa: RsaVerify, token: string, supabaseUrl: Option<string>,
                            now: int, jwks: Option<JsValue>, i: nat)
    requires ParseJwt(codec, token).Ok?
    requires ClaimsAccepted(ParseJwt(codec, token).value, supabaseUrl, now)
    requires jwks.Some? && KeysOf(jwks.value).Ok?
    requires var parsed, keys := ParseJwt(codec, token).value, KeysOf(jwks.value).value;
      && i < |keys|
      && StrictEquals(Get(keys[i], "kid"), Get(parsed.header, "kid"))
      && (forall j :: 0 <= j < i ==> !keys[j].Null? && !StrictEquals(Get(keys[j], "kid"), Get(parsed.header, "kid")))
      && rsa(parsed.signingInput, keys[i], parsed.signature) == Some(true)
    ensures Verify(codec, rsa, token, supabaseUrl, now, jwks) == Ok(ParseJwt(codec, token).value.payload)
  {
    var parsed, keys := ParseJwt(codec, token).value, KeysOf(jwks.value).value;
    assert FirstMatch(keys, Get(parsed.header, "kid"), i);
    FindKeyAt(keys, Get(parsed.header, "kid"), i);
  }

  lemma {:induction false} FindKeyAt(keys: seq<JsValue>, kid: Option<JsValue>, i: int)
    requires FirstMatch(keys, kid, i)
    ensures FindKey(keys, kid) == Ok(Some(keys[i]))
  {
    if i > 0 {
      assert !keys[0].Null?;
      forall j | 0 <= j < i - 1 ensures !keys[1..][j].Null? && !StrictEquals(Get(keys[1..][j], "kid"), kid) {
        assert keys[1..][j] == keys[j + 1];
      }
      assert FirstMatch(keys[1..], kid, i - 1);
      FindKeyAt(keys[1..], kid, i - 1);
    }
  }

  /**
   * The first failing check decides the error: each error says that every
   * check before it passed and that its own check failed. A property read on
   * null fails on a null header, on a null payload once the header passed, or
   * in the key step; every error of the key step comes after all claim checks
   * passed and is the key step's own (KeyLookupOutcomes, SignatureOutcomes).
   */
  lemma FirstFailureDecides(codec: Codec, rsa: RsaVerify, token: string, supabaseUrl: Option<string>,
                            now: int, jwks: Option<JsValue>)
    ensures var r, p := Verify(codec, rsa, token, supabaseUrl, now, jwks), ParseJwt(codec, token);
      && (r == Err(MalformedJwt) <==> !WellFormedSegments(token))
      && (r == Err(InvalidJson) <==> WellFormedSegments(token) && p.Err?)
      && (r == Err(UnexpectedAlg) <==>
            p.Ok? && !p.value.header.Null? && Get(p.value.header, "alg") != Some(Str("RS256")))
      && (r == Err(MissingKid) <==>
            p.Ok? && !p.value.header.Null? && Get(p.value.header, "alg") == Some(Str("RS256")) && !Truthy(Get(p.value.header, "kid")))
      && (r == Err(TokenExpired) <==>
            p.Ok? && HeaderAccepted(p.value.header) && !p.value.payload.Null? && Expired(p.value.payload, now))
      && (r == Err(InvalidIssuer) <==>
            p.Ok? && HeaderAccepted(p.value.header) && !p.value.payload.Null? && !Expired(p.value.payload, now)
            && Get(p.value.payload, "iss") != Some(Str(ExpectedIssuer(supabaseUrl))))
      && (r == Err(NullAccess) <==>
            p.Ok? && (p.value.header.Null?
                      || (HeaderAccepted(p.value.header) && p.value.payload.Null?)
                      || (ClaimsAccepted(p.value, supabaseUrl, now) && jwks.Some?
                          && (jwks.value.Null?
                              || (KeysOf(jwks.value).Ok? && NullBeforeMatch(KeysOf(jwks.value).value, Get(p.value.header, "kid")))))))
      && (forall e :: e in {KeySetUnavailable, BadKeySet, UnknownKid, KeyRejected, BadSignature} ==>
            (r == Err(e) <==> p.Ok? && ClaimsAccepted(p.value, supabaseUrl, now) && KeyCheck(p.value, jwks, rsa) == Err(e)))
  {
    var p := ParseJwt(codec, token);
    if p.Ok? {
      ClaimCheckPasses(p.value, supabaseUrl, now);
      KeyLookupOutcomes(p.value, jwks, rsa);
      if ClaimCheck(p.value, supabaseUrl, now).None? {
        assert Verify(codec, rsa, token, supabaseUrl, now, jwks) == KeyCheck(p.value, jwks, rsa);
        KeyCheckErrors(p.value, jwks, rsa);
      }
    }
  }

  /**
   * The key step's errors as seen by the caller: each comes after parsing and
   * every claim check passed. No key set; a `keys` that cannot be searched;
   * no entry matching and none null; or the first match refused as a key or
   * failing the signature check.
   */
  lemma KeyStageDecides(codec: Codec, rsa: RsaVerify, token: string, supabaseUrl: Option<string>,
                        now: int, jwks: Option<JsValue>)
    ensures var r, p := Verify(codec, rsa, token, supabaseUrl, now, jwks), ParseJwt(codec, token);
      var fetched := p.Ok? && ClaimsAccepted(p.value, supabaseUrl, now);
      && (r == Err(KeySetUnavailable) <==> fetched && jwks.None?)
      && (r == Err(BadKeySet) <==> fetched && jwks.Some? && KeysOf(jwks.value) == Err(BadKeySet))
      && (r == Err(UnknownKid) <==>
            (fetched && jwks.Some? && KeysOf(jwks.value).Ok? && NoMatch(KeysOf(jwks.value).value, Get(p.value.header, "kid"))))
      && (r == Err(KeyRejected) <==>
            (fetched && jwks.Some? && KeysOf(jwks.value).Ok?
             && exists i :: FirstMatch(KeysOf(jwks.value).value, Get(p.value.header, "kid"), i)
                  && rsa(p.value.signingInput, KeysOf(jwks.value).value[i], p.value.signature).None?))
      && (r == Err(BadSignature) <==>
            (fetched && jwks.Some? && KeysOf(jwks.value).Ok?
             && exists i :: FirstMatch(KeysOf(jwks.value).value, Get(p.value.header, "kid"), i)
                  && rsa(p.value.signingInput, KeysOf(jwks.value).value[i], p.value.signature) == Some(false)))
  {
    FirstFailureDecides(codec, rsa, token, supabaseUrl, now, jwks);
    var p := ParseJwt(codec, token);
    if p.Ok? {
      KeyLookupOutcomes(p.value, jwks, rsa);
      SignatureOutcomes(p.value, jwks, rsa);
    }
  }
}
