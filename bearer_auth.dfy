/**
 * getBearer and requireAuth of clientes.js and categorias.js: the token is
 * taken from an `Authorization: Bearer <token>` header (in the manner of
 * section 2.1 of RFC 6750, scheme name in any case), verified locally
 * (Jwt.Verify), and checked against the ADMIN_EMAILS allowlist, which lets
 * every verified caller through when it is empty.
 */
module BearerAuth {
  import opened Js
  import Jwt
  import AdminEmails

  function LeadingSpaces(s: string): (n: nat)
    ensures n <= |s|
  {
    if s != [] && IsSpace(s[0]) then 1 + LeadingSpaces(s[1..]) else 0
  }

  /**
   * What `\s+(.+)$` captures after the scheme name: `\s+` takes the whole run
   * of whitespace unless that leaves nothing for `(.+)`, in which case it
   * gives back one character; `.` matches anything but a line terminator, up
   * to the end.
   */
  function MatchAfterScheme(rest: string): Option<string> {
    var n := LeadingSpaces(rest);
    if n == 0 then None
    else if n < |rest| then (if NoLineTerminator(rest[n..]) then Some(rest[n..]) else None)
    else if n >= 2 && !IsLineTerminator(rest[n - 1]) then Some(rest[n - 1..])
    else None
  }

  /**
   * `header.match(/^Bearer\s+(.+)$/i)`, the captured group. The scheme name
   * is matched ignoring ASCII case.
   */
  function MatchBearer(header: string): Option<string> {
    if |header| < 6 || Lower(header[..6]) != "bearer" then None
    else MatchAfterScheme(header[6..])
  }

  /** getBearer: `req.headers.authorization || ""`, then the match. */
  function GetBearer(authorization: Option<string>): Option<string> {
    MatchBearer(if authorization.None? then "" else authorization.value)
  }

  datatype Reason =
    | MissingBearer                      // 401 "Missing Bearer token"
    | InvalidToken(cause: Jwt.TokenError) // 401 "Invalid token", details: the thrown message
    | EmailNotString                     // 401 "Invalid token": toLowerCase of a non-string threw
    | NotAllowed                         // 403 "Not allowed"

  datatype AuthResult = Granted(payload: JsValue) | Denied(status: int, reason: Reason)

  /** `payload.user_metadata?.email` */
  function MetadataEmail(payload: JsValue): Option<JsValue> {
    var meta := Get(payload, "user_metadata");
    if meta.None? || meta.value.Null? then None else Get(meta.value, "email")
  }

  /** `payload.email || payload.user_metadata?.email || payload.user_metadata?.["email"]` */
  function ClaimedEmail(payload: JsValue): Option<JsValue> {
    Or(Get(payload, "email"), Or(MetadataEmail(payload), MetadataEmail(payload)))
  }

  /** `(email || "").toLowerCase()`, None when the value is not a string and the call throws. */
  function LowerEmail(email: Option<JsValue>): Option<string> {
    var v := Or(email, Some(Str("")));
    if v.Some? && v.value.Str? then Some(Lower(v.value.s)) else None
  }

  /**
   * requireAuth. `adminEmailsEnv` is process.env.ADMIN_EMAILS, `jwks` what
   * the key-set fetch returned if it was made, `now` the clock in seconds.
   */
  function RequireAuth(codec: Jwt.Codec, rsa: Jwt.RsaVerify, authorization: Option<string>,
                       adminEmailsEnv: Option<string>, supabaseUrl: Option<string>,
                       now: int, jwks: Option<JsValue>): AuthResult
  {
    var token := GetBearer(authorization);
    if token.None? then Denied(401, MissingBearer)
    else match Jwt.Verify(codec, rsa, token.value, supabaseUrl, now, jwks)
      case Err(e) => Denied(401, InvalidToken(e))
      case Ok(payload) =>
        var admins := AdminEmails.Parse(adminEmailsEnv);
        if |admins| == 0 then Granted(payload)
        else match LowerEmail(ClaimedEmail(payload))
          case None => Denied(401, EmailNotString)
          case Some(email) => if email in admins then Granted(payload) else Denied(403, NotAllowed)
  }

  /** Whether requireAuth fetches the key set: a token was found and passed every claim check. */
  predicate FetchesKeySet(codec: Jwt.Codec, authorization: Option<string>, supabaseUrl: Option<string>, now: int) {
    var token := GetBearer(authorization);
    token.Some? && Jwt.FetchesKeySet(codec, token.value, supabaseUrl, now)
  }

  // ----- the Authorization header -----

  lemma {:induction false} LeadingSpacesFacts(s: string)
    ensures forall i :: 0 <= i < LeadingSpaces(s) ==> IsSpace(s[i])
    ensures LeadingSpaces(s) < |s| ==> !IsSpace(s[LeadingSpaces(s)])
  {
    if s != [] && IsSpace(s[0]) {
      LeadingSpacesFacts(s[1..]);
      forall i | 0 <= i < LeadingSpaces(s) ensures IsSpace(s[i]) {
        if i > 0 { assert s[i] == s[1..][i - 1]; }
      }
    }
  }

  lemma {:induction false} LeadingSpacesOf(ws: string, t: string)
    requires AllSpace(ws)
    requires t == [] || !IsSpace(t[0])
    ensures LeadingSpaces(ws + t) == |ws|
  {
    if ws == [] {
      assert ws + t == t;
    } else {
      assert (ws + t)[1..] == ws[1..] + t;
      LeadingSpacesOf(ws[1..], t);
    }
  }

  /**
   * A token found in the header is a non-empty suffix of it without line
   * terminators, preceded by the word Bearer in some case and at least one
   * whitespace character.
   */
  lemma BearerSound(header: string)
    requires MatchBearer(header).Some?
    ensures var t := MatchBearer(header).value;
      && t != ""
      && NoLineTerminator(t)
      && EndsWith(header, t)
      && |header| >= 7 + |t|
      && Lower(header[..6]) == "bearer"
      && AllSpace(header[6..|header| - |t|])
  {
    AfterSchemeSound(header[6..]);
    var t := MatchBearer(header).value;
    assert header[|header| - |t|..] == header[6..][|header| - 6 - |t|..];
    forall i | 6 <= i < |header| - |t| ensures IsSpace(header[i]) {
      assert header[i] == header[6..][i - 6];
    }
  }

  /** What follows the scheme name is whitespace, then the token. */
  lemma AfterSchemeSound(rest: string)
    requires MatchAfterScheme(rest).Some?
    ensures var t := MatchAfterScheme(rest).value;
      && t != "" && NoLineTerminator(t) && |rest| >= 1 + |t|
      && rest[|rest| - |t|..] == t
      && AllSpace(rest[..|rest| - |t|])
  {
    LeadingSpacesFacts(rest);
    var n := LeadingSpaces(rest);
    var t := MatchAfterScheme(rest).value;
    if n < |rest| {
      assert t == rest[n..];
    } else {
      assert t == rest[n - 1..] && t[0] == rest[n - 1];
    }
  }

  /**
   * Conversely, `Bearer` in any case, a run of whitespace and a token that does
   * not start with whitespace and holds no line terminator give that token.
   */
  lemma BearerComplete(scheme: string, ws: string, t: string)
    requires |scheme| == 6 && Lower(scheme) == "bearer"
    requires ws != "" && AllSpace(ws)
    requires t != "" && !IsSpace(t[0]) && NoLineTerminator(t)
    ensures MatchBearer(scheme + ws + t) == Some(t)
  {
    var header := scheme + ws + t;
    assert header[..6] == scheme;
    assert header[6..] == ws + t;
    LeadingSpacesOf(ws, t);
    assert (ws + t)[|ws|..] == t;
  }

  /**
   * The regular expression lets a header that is only the scheme and two or
   * more whitespace characters through: the token is the last whitespace
   * character (which requireAuth then sends to verification).
   */
  lemma BearerOfBlank(scheme: string, ws: string)
    requires |scheme| == 6 && Lower(scheme) == "bearer"
    requires |ws| >= 2 && AllSpace(ws) && !IsLineTerminator(ws[|ws| - 1])
    ensures MatchBearer(scheme + ws) == Some([ws[|ws| - 1]])
  {
    var header := scheme + ws;
    assert header[..6] == scheme;
    assert header[6..] == ws;
    assert ws + [] == ws;
    LeadingSpacesOf(ws, []);
    assert LeadingSpaces(header[6..]) == |ws|;
    assert ws[|ws| - 1..] == [ws[|ws| - 1]];
  }

  // ----- requireAuth -----

  /** The third alternative of ClaimedEmail repeats the second and never changes the result. */
  lemma ClaimedEmailPrecedence(payload: JsValue)
    ensures ClaimedEmail(payload) == Or(Get(payload, "email"), MetadataEmail(payload))
    ensures Truthy(Get(payload, "email")) ==> ClaimedEmail(payload) == Get(payload, "email")
  {
  }

  /**
   * Access is granted only to a verified token, and then with its payload;
   * when the allowlist has entries, the claimed email, lower-cased, is one of them.
   */
  lemma GrantedMeans(codec: Jwt.Codec, rsa: Jwt.RsaVerify, authorization: Option<string>,
                     adminEmailsEnv: Option<string>, supabaseUrl: Option<string>, now: int, jwks: Option<JsValue>)
    requires RequireAuth(codec, rsa, authorization, adminEmailsEnv, supabaseUrl, now, jwks).Granted?
    ensures var r, token := RequireAuth(codec, rsa, authorization, adminEmailsEnv, supabaseUrl, now, jwks), GetBearer(authorization);
      && token.Some?
      && Jwt.Verify(codec, rsa, token.value, supabaseUrl, now, jwks) == Ok(r.payload)
      && r.payload.Obj?
      && (AdminEmails.Parse(adminEmailsEnv) != [] ==>
            LowerEmail(ClaimedEmail(r.payload)).Some? && LowerEmail(ClaimedEmail(r.payload)).value in AdminEmails.Parse(adminEmailsEnv))
  {
    var token := GetBearer(authorization);
    Jwt.VerifiedMeans(codec, rsa, token.value, supabaseUrl, now, jwks);
  }

  /** The outcome for every input, denial by denial. */
  lemma Outcomes(codec: Jwt.Codec, rsa: Jwt.RsaVerify, authorization: Option<string>,
                 adminEmailsEnv: Option<string>, supabaseUrl: Option<string>, now: int, jwks: Option<JsValue>)
    ensures var r, token := RequireAuth(codec, rsa, authorization, adminEmailsEnv, supabaseUrl, now, jwks), GetBearer(authorization);
      var admins := AdminEmails.Parse(adminEmailsEnv);
      && (r == Denied(401, MissingBearer) <==> token.None?)
      && (forall e :: r == Denied(401, InvalidToken(e)) <==>
            token.Some? && Jwt.Verify(codec, rsa, token.value, supabaseUrl, now, jwks) == Err(e))
      && (r == Denied(401, EmailNotString) <==>
            token.Some? && Jwt.Verify(codec, rsa, token.value, supabaseUrl, now, jwks).Ok? && admins != []
            && LowerEmail(ClaimedEmail(Jwt.Verify(codec, rsa, token.value, supabaseUrl, now, jwks).value)).None?)
      && (r == Denied(403, NotAllowed) <==>
            token.Some? && Jwt.Verify(codec, rsa, token.value, supabaseUrl, now, jwks).Ok? && admins != []
            && LowerEmail(ClaimedEmail(Jwt.Verify(codec, rsa, token.value, supabaseUrl, now, jwks).value)).Some?
            && LowerEmail(ClaimedEmail(Jwt.Verify(codec, rsa, token.value, supabaseUrl, now, jwks).value)).value !in admins)
      && (r.Denied? ==> (r.status == 403 <==> r.reason == NotAllowed) && (r.status == 401 || r.status == 403))
  {
  }

  /**
   * With ADMIN_EMAILS unset or holding only whitespace and commas, every token
   * that verifies is let through, whatever its email claim (fail-open).
   */
  lemma FailOpen(codec: Jwt.Codec, rsa: Jwt.RsaVerify, authorization: Option<string>,
                 adminEmailsEnv: Option<string>, supabaseUrl: Option<string>, now: int, jwks: Option<JsValue>)
    requires adminEmailsEnv.None? || AdminEmails.Blank(adminEmailsEnv.value)
    requires GetBearer(authorization).Some?
    requires Jwt.Verify(codec, rsa, GetBearer(authorization).value, supabaseUrl, now, jwks).Ok?
    ensures RequireAuth(codec, rsa, authorization, adminEmailsEnv, supabaseUrl, now, jwks)
         == Granted(Jwt.Verify(codec, rsa, GetBearer(authorization).value, supabaseUrl, now, jwks).value)
  {
    AdminEmails.EmptyIffBlank(adminEmailsEnv);
  }

  /**
   * With a non-empty allowlist, a verified token whose claimed email is a
   * string gets through exactly when that email, lower-cased, is the trimmed
   * lower-cased form of one of the comma-separated pieces of ADMIN_EMAILS.
   */
  lemma AllowlistDecides(codec: Jwt.Codec, rsa: Jwt.RsaVerify, authorization: Option<string>,
                         adminEmailsEnv: Option<string>, supabaseUrl: Option<string>, now: int, jwks: Option<JsValue>)
    requires !(adminEmailsEnv.None? || AdminEmails.Blank(adminEmailsEnv.value))
    requires GetBearer(authorization).Some?
    requires Jwt.Verify(codec, rsa, GetBearer(authorization).value, supabaseUrl, now, jwks).Ok?
    requires LowerEmail(ClaimedEmail(Jwt.Verify(codec, rsa, GetBearer(authorization).value, supabaseUrl, now, jwks).value)).Some?
    ensures var email := LowerEmail(ClaimedEmail(Jwt.Verify(codec, rsa, GetBearer(authorization).value, supabaseUrl, now, jwks).value)).value;
      var pieces := AdminEmails.Pieces(adminEmailsEnv);
      RequireAuth(codec, rsa, authorization, adminEmailsEnv, supabaseUrl, now, jwks).Granted? <==>
        email != "" && exists i :: 0 <= i < |pieces| && AdminEmails.NormalizeEntry(pieces[i]) == email
  {
    AdminEmails.EmptyIffBlank(adminEmailsEnv);
    var email := LowerEmail(ClaimedEmail(Jwt.Verify(codec, rsa, GetBearer(authorization).value, supabaseUrl, now, jwks).value)).value;
    AdminEmails.Membership(adminEmailsEnv, email);
  }

  /**
   * A token the claim checks reject gets its 401 without the key set being
   * fetched: the outcome does not depend on the key set or the signature
   * verifier.
   */
  lemma NoFetchNoDependence(codec: Jwt.Codec, rsa1: Jwt.RsaVerify, rsa2: Jwt.RsaVerify, authorization: Option<string>,
                            adminEmailsEnv: Option<string>, supabaseUrl: Option<string>, now: int,
                            jwks1: Option<JsValue>, jwks2: Option<JsValue>)
    requires !FetchesKeySet(codec, authorization, supabaseUrl, now)
    ensures RequireAuth(codec, rsa1, authorization, adminEmailsEnv, supabaseUrl, now, jwks1)
         == RequireAuth(codec, rsa2, authorization, adminEmailsEnv, supabaseUrl, now, jwks2)
    ensures RequireAuth(codec, rsa1, authorization, adminEmailsEnv, supabaseUrl, now, jwks1).Denied?
    ensures RequireAuth(codec, rsa1, authorization, adminEmailsEnv, supabaseUrl, now, jwks1).status == 401
  {
    var token := GetBearer(authorization);
    if token.Some? {
      Jwt.RejectedBeforeKeySet(codec, rsa1, rsa2, token.value, supabaseUrl, now, jwks1, jwks2);
    }
  }
}
