/**
 * requireAdmin (_lib/auth.js): the token after an exact `Bearer ` prefix is
 * handed to the authentication service (getUser) and the user it names must
 * have an email on the ADMIN_EMAILS allowlist. Unlike BearerAuth.RequireAuth,
 * an empty allowlist admits nobody.
 */
module RemoteAdmin {
  import opened Js
  import AdminEmails
  import BearerAuth
  import Jwt

  /** What `sbUser.auth.getUser()` resolved to: `{ data, error }`. */
  datatype UserLookup = UserLookup(data: Option<JsValue>, error: Option<JsValue>)

  datatype Failure =
    | MissingEnv        // "Missing SUPABASE_URL or SUPABASE_ANON_KEY"
    | EmailNotString    // toLowerCase of a non-string email threw

  datatype AdminResult =
    | Admin(user: JsValue)                   // { ok: true, user }
    | Refused(status: int, error: string)    // { ok: false, status, error }
    | Thrown(failure: Failure)               // the promise rejects

  /** `authHeader.startsWith("Bearer ") ? authHeader.slice(7) : null`, with `!token` folded in. */
  function PrefixToken(authorization: Option<string>): Option<string> {
    var h := if authorization.None? then "" else authorization.value;
    if StartsWith(h, "Bearer ") && |h| > 7 then Some(h[7..]) else None
  }

  predicate Configured(url: Option<string>, anonKey: Option<string>) {
    url.Some? && url.value != "" && anonKey.Some? && anonKey.value != ""
  }

  /** `data?.user` */
  function LookedUpUser(lookup: UserLookup): Option<JsValue> {
    if lookup.data.None? || lookup.data.value.Null? then None else Get(lookup.data.value, "user")
  }

  /**
   * requireAdmin. `lookup` is what getUser answers for the token; it is only
   * asked when a token was found.
   */
  function RequireAdmin(url: Option<string>, anonKey: Option<string>, adminEmailsEnv: Option<string>,
                        authorization: Option<string>, lookup: UserLookup): AdminResult
  {
    var admins := AdminEmails.Parse(adminEmailsEnv);
    if !Configured(url, anonKey) then Thrown(MissingEnv)
    else if PrefixToken(authorization).None? then Refused(401, "Missing Bearer token")
    else if Truthy(lookup.error) || !Truthy(LookedUpUser(lookup)) then Refused(401, "Invalid token")
    else
      var user := LookedUpUser(lookup).value;
      match BearerAuth.LowerEmail(Get(user, "email"))
      case None => Thrown(EmailNotString)
      case Some(email) => if email in admins then Admin(user) else Refused(403, "Not an admin")
  }

  /** The token is exactly what follows `Bearer ` (one space, that case), and is non-empty. */
  lemma PrefixTokenIff(authorization: Option<string>, t: string)
    ensures PrefixToken(authorization) == Some(t) <==> authorization == Some("Bearer " + t) && t != ""
  {
    if authorization.Some? && authorization.value == "Bearer " + t {
      assert authorization.value[..7] == "Bearer ";
      assert authorization.value[7..] == t;
    }
    if PrefixToken(authorization) == Some(t) {
      assert authorization.value == authorization.value[..7] + authorization.value[7..];
    }
  }

  /** Missing configuration is reported before the header or the lookup are looked at. */
  lemma ConfigFirst(url: Option<string>, anonKey: Option<string>, adminEmailsEnv: Option<string>,
                    authorization1: Option<string>, lookup1: UserLookup,
                    authorization2: Option<string>, lookup2: UserLookup)
    requires !Configured(url, anonKey)
    ensures RequireAdmin(url, anonKey, adminEmailsEnv, authorization1, lookup1) == Thrown(MissingEnv)
    ensures RequireAdmin(url, anonKey, adminEmailsEnv, authorization1, lookup1)
         == RequireAdmin(url, anonKey, adminEmailsEnv, authorization2, lookup2)
  {
  }

  /** Without a token the authentication service is not consulted: the lookup plays no part. */
  lemma NoTokenNoLookup(url: Option<string>, anonKey: Option<string>, adminEmailsEnv: Option<string>,
                        authorization: Option<string>, lookup1: UserLookup, lookup2: UserLookup)
    requires PrefixToken(authorization).None?
    ensures RequireAdmin(url, anonKey, adminEmailsEnv, authorization, lookup1)
         == RequireAdmin(url, anonKey, adminEmailsEnv, authorization, lookup2)
    ensures Configured(url, anonKey) ==>
      RequireAdmin(url, anonKey, adminEmailsEnv, authorization, lookup1) == Refused(401, "Missing Bearer token")
  {
  }

  /**
   * An admin is a configured deployment, a token after `Bearer `, a lookup
   * without error naming that user, and the user's email, lower-cased, on a
   * non-empty allowlist.
   */
  lemma AdminMeans(url: Option<string>, anonKey: Option<string>, adminEmailsEnv: Option<string>,
                   authorization: Option<string>, lookup: UserLookup)
    requires RequireAdmin(url, anonKey, adminEmailsEnv, authorization, lookup).Admin?
    ensures var user := RequireAdmin(url, anonKey, adminEmailsEnv, authorization, lookup).user;
      var email := BearerAuth.LowerEmail(Get(user, "email"));
      && Configured(url, anonKey)
      && PrefixToken(authorization).Some?
      && !Truthy(lookup.error)
      && LookedUpUser(lookup) == Some(user) && Truthy(Some(user))
      && email.Some? && email.value in AdminEmails.Parse(adminEmailsEnv)
      && AdminEmails.Parse(adminEmailsEnv) != []
  {
  }

  /** The converse: with all of that, the user the lookup named is returned. */
  lemma AdminWhen(url: Option<string>, anonKey: Option<string>, adminEmailsEnv: Option<string>,
                  authorization: Option<string>, lookup: UserLookup)
    requires Configured(url, anonKey)
    requires PrefixToken(authorization).Some?
    requires !Truthy(lookup.error) && Truthy(LookedUpUser(lookup))
    requires BearerAuth.LowerEmail(Get(LookedUpUser(lookup).value, "email")).Some?
    requires BearerAuth.LowerEmail(Get(LookedUpUser(lookup).value, "email")).value in AdminEmails.Parse(adminEmailsEnv)
    ensures RequireAdmin(url, anonKey, adminEmailsEnv, authorization, lookup) == Admin(LookedUpUser(lookup).value)
  {
  }

  /** The lookup found a user: no truthy error and a truthy `data.user`. */
  predicate LookupPasses(lookup: UserLookup) {
    !Truthy(lookup.error) && Truthy(LookedUpUser(lookup))
  }

  /**
   * The outcome for every input, result by result, in the order the checks
   * are made: configuration, token, lookup, then the email against the
   * allowlist.
   */
  lemma Outcomes(url: Option<string>, anonKey: Option<string>, adminEmailsEnv: Option<string>,
                 authorization: Option<string>, lookup: UserLookup)
    ensures var r, token := RequireAdmin(url, anonKey, adminEmailsEnv, authorization, lookup), PrefixToken(authorization);
      var admins, passed := AdminEmails.Parse(adminEmailsEnv), Configured(url, anonKey) && token.Some? && LookupPasses(lookup);
      && (r == Thrown(MissingEnv) <==> !Configured(url, anonKey))
      && (r == Refused(401, "Missing Bearer token") <==> Configured(url, anonKey) && token.None?)
      && (r == Refused(401, "Invalid token") <==> Configured(url, anonKey) && token.Some? && !LookupPasses(lookup))
      && (r == Thrown(EmailNotString) <==>
            passed && BearerAuth.LowerEmail(Get(LookedUpUser(lookup).value, "email")).None?)
      && (r == Refused(403, "Not an admin") <==>
            passed && BearerAuth.LowerEmail(Get(LookedUpUser(lookup).value, "email")).Some?
            && BearerAuth.LowerEmail(Get(LookedUpUser(lookup).value, "email")).value !in admins)
      && (r.Admin? <==>
            passed && BearerAuth.LowerEmail(Get(LookedUpUser(lookup).value, "email")).Some?
            && BearerAuth.LowerEmail(Get(LookedUpUser(lookup).value, "email")).value in admins)
      && (r.Admin? ==> r.user == LookedUpUser(lookup).value)
  {
  }

  /**
   * A user whose email is falsy is compared as "", which no allowlist entry
   * is: refused with 403.
   */
  lemma FalsyEmailRefused(url: Option<string>, anonKey: Option<string>, adminEmailsEnv: Option<string>,
                          authorization: Option<string>, lookup: UserLookup)
    requires Configured(url, anonKey) && PrefixToken(authorization).Some? && LookupPasses(lookup)
    requires !Truthy(Get(LookedUpUser(lookup).value, "email"))
    ensures RequireAdmin(url, anonKey, adminEmailsEnv, authorization, lookup) == Refused(403, "Not an admin")
  {
    AdminEmails.EntriesAreNormal(adminEmailsEnv);
    var email := Get(LookedUpUser(lookup).value, "email");
    assert Or(email, Some(Str(""))) == Some(Str(""));
    assert Lower("") == "";
    assert BearerAuth.LowerEmail(email) == Some("");
  }

  /** With ADMIN_EMAILS unset or blank nobody is an admin (fail-closed). */
  lemma FailClosed(url: Option<string>, anonKey: Option<string>, adminEmailsEnv: Option<string>,
                   authorization: Option<string>, lookup: UserLookup)
    requires adminEmailsEnv.None? || AdminEmails.Blank(adminEmailsEnv.value)
    ensures !RequireAdmin(url, anonKey, adminEmailsEnv, authorization, lookup).Admin?
    ensures Configured(url, anonKey) && PrefixToken(authorization).Some?
            && !Truthy(lookup.error) && Truthy(LookedUpUser(lookup))
            && BearerAuth.LowerEmail(Get(LookedUpUser(lookup).value, "email")).Some?
        ==> RequireAdmin(url, anonKey, adminEmailsEnv, authorization, lookup) == Refused(403, "Not an admin")
  {
    AdminEmails.EmptyIffBlank(adminEmailsEnv);
  }

  /**
   * The two admin checks disagree on a blank ADMIN_EMAILS: a token the local
   * check verifies is let through by it, while the remote check refuses every
   * user, even one the authentication service knows.
   */
  lemma EmptyAllowlistContrast(codec: Jwt.Codec, rsa: Jwt.RsaVerify, authorization: Option<string>,
                               supabaseUrl: Option<string>, now: int, jwks: Option<JsValue>,
                               anonKey: Option<string>, lookup: UserLookup)
    requires BearerAuth.GetBearer(authorization).Some?
    requires Jwt.Verify(codec, rsa, BearerAuth.GetBearer(authorization).value, supabaseUrl, now, jwks).Ok?
    ensures BearerAuth.RequireAuth(codec, rsa, authorization, None, supabaseUrl, now, jwks).Granted?
    ensures !RequireAdmin(supabaseUrl, anonKey, None, authorization, lookup).Admin?
  {
    BearerAuth.FailOpen(codec, rsa, authorization, None, supabaseUrl, now, jwks);
    FailClosed(supabaseUrl, anonKey, None, authorization, lookup);
  }

  /**
   * The two checks read the header differently: a lower-case scheme name is a
   * token to the local check and none to the remote one.
   */
  lemma HeaderContrastCase()
    ensures BearerAuth.GetBearer(Some("bearer abc")) == Some("abc")
    ensures PrefixToken(Some("bearer abc")).None?
  {
    assert "bearer abc" == "bearer" + " " + "abc";
    BearerAuth.BearerComplete("bearer", " ", "abc");
    assert "bearer abc"[0] != "Bearer "[0];
  }

  /** With two spaces after the scheme name the remote token keeps the second one. */
  lemma HeaderContrastSpaces()
    ensures BearerAuth.GetBearer(Some("Bearer  abc")) == Some("abc")
    ensures PrefixToken(Some("Bearer  abc")) == Some(" abc")
  {
    assert "Bearer  abc" == "Bearer" + "  " + "abc";
    BearerAuth.BearerComplete("Bearer", "  ", "abc");
    PrefixTokenIff(Some("Bearer  abc"), " abc");
  }
}
