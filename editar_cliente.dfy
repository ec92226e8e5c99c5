/**
 * The handler of admin/editar-cliente.js: a POST that edits the client named
 * by `slug`. It copies the allowed fields the body carries into a patch,
 * normalises the email, instagram and whatsapp strings, updates the row and,
 * when the email changed, moves the matching Auth user to the new address,
 * best effort: a failure there still answers 200.
 */
module EditarCliente {
  import opened Js
  import Cors
  import Http
  import AdminEmails

  const Table := "clientes"

  /** The keys the patch may take from the body, in the order they are copied. */
  const Allowed: seq<string> := ["nome", "whatsapp", "cidade", "tipo_negocio", "endereco", "instagram", "logo_url", "ativo", "email"]

  /** json() of _lib/supabase.js sets no CORS header; the reply carries the JSON content type only. */
  const NoCors: Cors.Headers := map[]

  /** What requireAlfa(req) decides; its checks are not part of this model. */
  datatype Access = Granted | Refused(status: int, message: string)

  /** `(v || "")` read as text; None when v is truthy but not a string (calling trim or toLowerCase on it throws). */
  function AsText(v: Option<JsValue>): (r: Option<string>)
    ensures !Truthy(v) ==> r == Some("")
    ensures Truthy(v) && v.value.Str? ==> r == Some(v.value.s)
    ensures r.None? <==> Truthy(v) && !v.value.Str?
    ensures r.Some? && r.value != "" ==> v == Some(Str(r.value))
  {
    if !Truthy(v) then Some("") else if v.value.Str? then Some(v.value.s) else None
  }

  /**
   * `typeof req.body === "string" ? JSON.parse(req.body) : (req.body || {})`;
   * None when JSON.parse throws.
   */
  function ParseBody(reqBody: Option<JsValue>, json: string -> Option<JsValue>): Option<JsValue> {
    if reqBody.Some? && reqBody.value.Str? then json(reqBody.value.s)
    else Or(reqBody, Some(Obj(map[])))
  }

  /** `(body.slug || "").trim()`; None when it throws (a null body, a non-string slug). */
  function SlugOf(body: JsValue): Option<string> {
    if body.Null? then None
    else match AsText(Get(body, "slug"))
      case None => None
      case Some(s) => Some(Trim(s))
  }

  function RequestSlug(reqBody: Option<JsValue>, json: string -> Option<JsValue>): Option<string> {
    match ParseBody(reqBody, json)
    case None => None
    case Some(body) => SlugOf(body)
  }

  /** `s.replace(/^@+/, "")` */
  function StripLeadingAt(s: string): string {
    if s != [] && s[0] == '@' then StripLeadingAt(s[1..]) else s
  }

  /** What is left does not start with '@', and is what follows a run of '@'s. */
  lemma {:induction false} StripLeadingAtFacts(s: string)
    ensures var r := StripLeadingAt(s);
      && (r == [] || r[0] != '@')
      && |r| <= |s| && r == s[|s| - |r|..]
      && forall i :: 0 <= i < |s| - |r| ==> s[i] == '@'
  {
    if s != [] && s[0] == '@' {
      StripLeadingAtFacts(s[1..]);
      var r := StripLeadingAt(s);
      forall i | 0 <= i < |s| - |r| ensures s[i] == '@' {
        if i > 0 { assert s[i] == s[1..][i - 1]; }
      }
    }
  }

  /** The normalisation of lines 46-48: only strings, and only these three keys, change. */
  function NormalizeField(k: string, v: JsValue): JsValue {
    if !v.Str? then v
    else if k == "email" then Str(AdminEmails.NormalizeEntry(v.s))
    else if k == "instagram" then Str(StripLeadingAt(Trim(v.s)))
    else if k == "whatsapp" then Str(Trim(v.s))
    else v
  }

  /** The patch sent to the database: the allowed own properties of the body, normalised. */
  function EditPatch(body: JsValue): map<string, JsValue> {
    map k | k in Allowed && Get(body, k).Some? :: NormalizeField(k, Get(body, k).value)
  }

  /** `(atual.email || "").trim().toLowerCase()`; None when it throws (no row, a non-string email). */
  function OldEmail(current: Option<JsValue>): Option<string> {
    if !Http.Readable(current) then None
    else match AsText(Get(current.value, "email"))
      case None => None
      case Some(e) => Some(AdminEmails.NormalizeEntry(e))
  }

  /** `(patch.email || "").trim().toLowerCase()`; None when it throws. */
  function NewEmail(patch: map<string, JsValue>): Option<string> {
    match AsText(if "email" in patch then Some(patch["email"]) else None)
    case None => None
    case Some(e) => Some(AdminEmails.NormalizeEntry(e))
  }

  /** The condition of line 63. */
  predicate SyncWanted(oldEmail: string, newEmail: string) {
    newEmail != "" && oldEmail != "" && newEmail != oldEmail
  }

  /** `(usersData?.users || [])`; None when that is not an array (calling find on it throws). */
  function UserList(data: Option<JsValue>): Option<seq<JsValue>> {
    var users := if Http.Readable(data) then Get(data.value, "users") else None;
    if !Truthy(users) then Some([])
    else if users.value.Arr? then Some(users.value.items)
    else None
  }

  /** The find callback `x => (x.email || "").toLowerCase() === oldEmail`; None when it throws. */
  function MatchesEmail(x: JsValue, email: string): Option<bool> {
    if x.Null? then None
    else match AsText(Get(x, "email"))
      case None => None
      case Some(e) => Some(Lower(e) == email)
  }

  datatype Search = Found(index: nat) | NotFound | Threw(index: nat)

  /** Array.prototype.find with that callback: the first match, or the first element the callback throws on. */
  function Find(users: seq<JsValue>, email: string): (r: Search)
    ensures r.Found? ==> r.index < |users| && MatchesEmail(users[r.index], email) == Some(true)
    ensures r.Threw? ==> r.index < |users| && MatchesEmail(users[r.index], email).None?
    ensures r.Found? || r.Threw? ==> forall j :: 0 <= j < r.index ==> MatchesEmail(users[j], email) == Some(false)
    ensures r.NotFound? <==> forall j :: 0 <= j < |users| ==> MatchesEmail(users[j], email) == Some(false)
  {
    if users == [] then NotFound
    else match MatchesEmail(users[0], email)
      case None => Threw(0)
      case Some(true) => Found(0)
      case Some(false) =>
        match Find(users[1..], email)
        case Found(i) => Found(i + 1)
        case Threw(i) => Threw(i + 1)
        case NotFound => NotFound
  }

  /** The id `updateUserById` is called with: `u?.id` of the user found, when truthy. */
  function Target(oldEmail: string, listing: Http.DbResult): Option<JsValue> {
    if listing.error.Some? then None
    else match UserList(listing.data)
      case None => None
      case Some(users) =>
        match Find(users, oldEmail)
        case Found(i) => if Truthy(Get(users[i], "id")) then Get(users[i], "id") else None
        case _ => None
  }

  /**
   * The user moved to the new address is the first one whose lower-cased
   * email is the old address, in a listing that came back without error.
   */
  lemma TargetIsFirstMatch(oldEmail: string, listing: Http.DbResult)
    requires Target(oldEmail, listing).Some?
    ensures listing.error.None? && UserList(listing.data).Some?
    ensures var users := UserList(listing.data).value;
      exists i :: 0 <= i < |users|
        && Get(users[i], "id") == Target(oldEmail, listing) && Truthy(Get(users[i], "id"))
        && MatchesEmail(users[i], oldEmail) == Some(true)
        && forall j :: 0 <= j < i ==> MatchesEmail(users[j], oldEmail) == Some(false)
  {
    var users := UserList(listing.data).value;
    var i := Find(users, oldEmail).index;
    assert Get(users[i], "id") == Target(oldEmail, listing);
  }

  /**
   * Only strings, and only under email, instagram and whatsapp, change: the
   * email becomes trimmed and lower-case, the instagram handle loses its
   * surrounding whitespace and every leading '@', the whatsapp number its
   * surrounding whitespace.
   */
  lemma NormalizeFieldMeaning(k: string, v: JsValue)
    ensures !v.Str? || (k != "email" && k != "instagram" && k != "whatsapp") ==> NormalizeField(k, v) == v
    ensures v.Str? && k == "email" ==>
      var e := NormalizeField(k, v).s; Trim(e) == e && Lower(e) == e && e == Lower(Trim(v.s))
    ensures v.Str? && k == "instagram" ==>
      var ig, t := NormalizeField(k, v).s, Trim(v.s);
      && (ig == [] || ig[0] != '@') && |ig| <= |t| && ig == t[|t| - |ig|..]
      && forall i :: 0 <= i < |t| - |ig| ==> t[i] == '@'
    ensures v.Str? && k == "whatsapp" ==> NormalizeField(k, v) == Str(Trim(v.s)) && Trim(Trim(v.s)) == Trim(v.s)
  {
    if v.Str? {
      AdminEmails.NormalizeEntryIsNormal(v.s);
      TrimIdempotent(v.s);
      StripLeadingAtFacts(Trim(v.s));
    }
  }

  /** The email written by the patch is the address the sync compares against. */
  lemma NewEmailOfPatch(body: JsValue)
    ensures Get(body, "email").Some? && Get(body, "email").value.Str? ==>
      NewEmail(EditPatch(body)) == Some(AdminEmails.NormalizeEntry(Get(body, "email").value.s))
    ensures Get(body, "email").None? ==> NewEmail(EditPatch(body)) == Some("")
  {
    var p := EditPatch(body);
    if Get(body, "email").Some? && Get(body, "email").value.Str? {
      var e := AdminEmails.NormalizeEntry(Get(body, "email").value.s);
      assert "email" in Allowed;
      assert p["email"] == Str(e);
      AdminEmails.NormalizeEntryIsNormal(Get(body, "email").value.s);
    } else if Get(body, "email").None? {
      assert "email" !in p;
      assert AdminEmails.NormalizeEntry("") == "";
    }
  }

  /** The allowed-key loop: own properties of the body under an allowed key, copied as they are. */
  method CopyAllowed(body: JsValue) returns (patch: map<string, JsValue>)
    ensures forall k :: k in patch <==> k in Allowed && Get(body, k).Some?
    ensures forall k :: k in patch ==> Get(body, k) == Some(patch[k])
  {
    patch := map[];
    for i := 0 to |Allowed|
      invariant forall k :: k in patch <==> k in Allowed[..i] && Get(body, k).Some?
      invariant forall k :: k in patch ==> Get(body, k) == Some(patch[k])
    {
      var k := Allowed[i];
      assert Allowed[..i + 1] == Allowed[..i] + [k];
      if Get(body, k).Some? {
        patch := patch[k := Get(body, k).value];
      }
    }
    assert Allowed[..|Allowed|] == Allowed;
  }

  /** The normalisations of lines 46-48, each overwriting one key of the patch in place. */
  method NormalizePatch(copied: map<string, JsValue>) returns (patch: map<string, JsValue>)
    ensures patch.Keys == copied.Keys
    ensures forall k :: k in patch ==> patch[k] == NormalizeField(k, copied[k])
  {
    patch := copied;
    if "email" in patch && patch["email"].Str? {
      patch := patch["email" := Str(AdminEmails.NormalizeEntry(patch["email"].s))];
    }
    if "instagram" in patch && patch["instagram"].Str? {
      patch := patch["instagram" := Str(StripLeadingAt(Trim(patch["instagram"].s)))];
    }
    if "whatsapp" in patch && patch["whatsapp"].Str? {
      patch := patch["whatsapp" := Str(Trim(patch["whatsapp"].s))];
    }
    assert "email" != "instagram" && "email" != "whatsapp" && "instagram" != "whatsapp";
  }

  /** The patch of lines 26-48. */
  method BuildPatch(body: JsValue) returns (patch: map<string, JsValue>)
    ensures patch == EditPatch(body)
  {
    var copied := CopyAllowed(body);
    patch := NormalizePatch(copied);
    assert patch.Keys == EditPatch(body).Keys;
  }

  /**
   * AuthEmailUpdated of lines 62-83: list the users, find the one holding the
   * old address and move it to the new one; every failure is swallowed.
   */
  method SyncAuthEmail(oldEmail: string, newEmail: string, listing: Http.DbResult,
                       update: (JsValue, string) -> Option<string>)
    returns (updated: bool, calls: seq<Http.Call>)
    ensures !SyncWanted(oldEmail, newEmail) ==> !updated && calls == []
    ensures SyncWanted(oldEmail, newEmail) ==>
      calls == [Http.ListUsers] + (match Target(oldEmail, listing)
                                   case None => []
                                   case Some(id) => [Http.UpdateUser(id, newEmail)])
    ensures updated <==>
      SyncWanted(oldEmail, newEmail) && Target(oldEmail, listing).Some?
      && update(Target(oldEmail, listing).value, newEmail).None?
  {
    updated := false;
    calls := [];
    if !SyncWanted(oldEmail, newEmail) {
      return;
    }
    calls := [Http.ListUsers];
    if listing.error.Some? {
      return;
    }
    var users := UserList(listing.data);
    if users.None? {
      return;
    }
    var found := Find(users.value, oldEmail);
    if !found.Found? {
      return;
    }
    var id := Get(users.value[found.index], "id");
    if !Truthy(id) {
      return;
    }
    calls := calls + [Http.UpdateUser(id.value, newEmail)];
    if update(id.value, newEmail).Some? {
      return;
    }
    updated := true;
  }

  /** The request gets past the two database calls and computes both addresses. */
  predicate Completed(reqBody: Option<JsValue>, json: string -> Option<JsValue>, db: Http.Db) {
    var body := ParseBody(reqBody, json);
    var slug := RequestSlug(reqBody, json);
    body.Some? && slug.Some? && slug.value != ""
    && var current := db(Http.SelectOne(Table, "slug", Str(slug.value)));
    current.error.None?
    && db(Http.Update(Table, EditPatch(body.value), "slug", Str(slug.value))).error.None?
    && OldEmail(current.data).Some? && NewEmail(EditPatch(body.value)).Some?
  }

  /**
   * The whole handler. `reqBody` is req.body as the platform hands it over,
   * `listing` what listUsers answers and `update` what updateUserById answers
   * for an id and an address (None: no error).
   */
  method Handle(verb: string, reqBody: Option<JsValue>, access: Access, json: string -> Option<JsValue>,
                db: Http.Db, listing: Http.DbResult, update: (JsValue, string) -> Option<string>)
    returns (reply: Http.Reply, calls: seq<Http.Call>)
    ensures verb != "POST" ==> reply == Http.Json(NoCors, 405, Http.Error("Method not allowed")) && calls == []
    ensures verb == "POST" ==> |calls| >= 1 && calls[0] == Http.Authorize
    ensures verb == "POST" && access.Refused? ==>
      reply == Http.Json(NoCors, access.status, Http.Error(access.message)) && calls == [Http.Authorize]
    ensures verb == "POST" && access.Granted? ==>
      (reply.status == 400 <==> RequestSlug(reqBody, json) == Some(""))
      && (reply.status == 400 ==> reply == Http.Json(NoCors, 400, Http.Error("slug é obrigatório")) && calls == [Http.Authorize])
    ensures Http.Queries(calls) ==> verb == "POST" && access.Granted? && RequestSlug(reqBody, json).Some?
    ensures verb == "POST" && access.Granted? && ParseBody(reqBody, json).Some?
            && RequestSlug(reqBody, json).Some? && RequestSlug(reqBody, json).value != "" ==>
      var slug, body := RequestSlug(reqBody, json).value, ParseBody(reqBody, json).value;
      var select := Http.SelectOne(Table, "slug", Str(slug));
      && |calls| >= 2 && calls[1] == Http.Query(select)
      && (db(select).error.None? ==>
            |calls| >= 3 && calls[2] == Http.Query(Http.Update(Table, EditPatch(body), "slug", Str(slug))))
    ensures verb == "POST" && access.Granted? ==> (reply.status == 200 <==> Completed(reqBody, json, db))
    ensures reply.body.Synced? <==> verb == "POST" && access.Granted? && Completed(reqBody, json, db)
    ensures reply.body.Synced? ==>
      var slug, body := RequestSlug(reqBody, json).value, ParseBody(reqBody, json).value;
      var oldEmail := OldEmail(db(Http.SelectOne(Table, "slug", Str(slug))).data).value;
      var newEmail := NewEmail(EditPatch(body)).value;
      reply.body == Http.Synced(SyncWanted(oldEmail, newEmail) && Target(oldEmail, listing).Some?
                                && update(Target(oldEmail, listing).value, newEmail).None?)
      && (Http.ListUsers in calls <==> SyncWanted(oldEmail, newEmail))
    ensures Http.ListUsers in calls ==> reply.body.Synced?
    ensures reply.status == 200 || reply.status == 400 || reply.status == 405 || reply.status == 500 || access.Refused?
  {
    calls := [];
    if verb != "POST" {
      reply := Http.Json(NoCors, 405, Http.Error("Method not allowed"));
      return;
    }
    calls := [Http.Authorize];
    if access.Refused? {
      reply := Http.Json(NoCors, access.status, Http.Error(access.message));
      return;
    }
    var parsed := ParseBody(reqBody, json);
    if parsed.None? {
      reply := Http.Json(NoCors, 500, Http.ServerError);
      return;
    }
    var body := parsed.value;
    var slug := SlugOf(body);
    if slug.None? {
      reply := Http.Json(NoCors, 500, Http.ServerError);
      return;
    }
    if slug.value == "" {
      reply := Http.Json(NoCors, 400, Http.Error("slug é obrigatório"));
      return;
    }
    var select := Http.SelectOne(Table, "slug", Str(slug.value));
    calls := calls + [Http.Query(select)];
    var current := db(select);
    if current.error.Some? {
      reply := Http.Json(NoCors, 500, Http.ServerError);
      return;
    }
    var patch := BuildPatch(body);
    var change := Http.Update(Table, patch, "slug", Str(slug.value));
    calls := calls + [Http.Query(change)];
    if db(change).error.Some? {
      reply := Http.Json(NoCors, 500, Http.ServerError);
      return;
    }
    var oldEmail := OldEmail(current.data);
    if oldEmail.None? {
      reply := Http.Json(NoCors, 500, Http.ServerError);
      return;
    }
    var newEmail := NewEmail(patch);
    if newEmail.None? {
      reply := Http.Json(NoCors, 500, Http.ServerError);
      return;
    }
    var pre := calls;
    var updated, syncCalls := SyncAuthEmail(oldEmail.value, newEmail.value, listing, update);
    calls := calls + syncCalls;
    assert Http.ListUsers !in pre;
    if SyncWanted(oldEmail.value, newEmail.value) {
      assert calls[|pre|] == Http.ListUsers;
    }
    reply := Http.Json(NoCors, 200, Http.Synced(updated));
  }
}
