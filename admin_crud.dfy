/**
 * The parts clientes.js and categorias.js write out identically around their
 * own create, update and list branches: CORS and the preflight, the
 * configuration guard, requireAuth, readBody, and the PATCH actions toggle
 * and duplicate and DELETE by id, each on its own table.
 */
module AdminCrud {
  import opened Js
  import Jwt
  import BearerAuth
  import Cors
  import Http

  /** The process.env values the two handlers read when they are loaded. */
  datatype Env = Env(supabaseUrl: Option<string>, serviceRole: Option<string>, adminEmails: Option<string>)

  /** What local verification needs besides the token: decoders, RSA check, clock, fetched key set. */
  datatype Verifier = Verifier(codec: Jwt.Codec, rsa: Jwt.RsaVerify, now: int, jwks: Option<JsValue>)

  /** `SUPABASE_URL && SERVICE_ROLE` */
  predicate Configured(env: Env) {
    env.supabaseUrl.Some? && env.supabaseUrl.value != "" && env.serviceRole.Some? && env.serviceRole.value != ""
  }

  function Auth(req: Http.Request, env: Env, v: Verifier): BearerAuth.AuthResult {
    BearerAuth.RequireAuth(v.codec, v.rsa, req.authorization, env.adminEmails, env.supabaseUrl, v.now, v.jwks)
  }

  /** The key-set fetch, when requireAuth gets that far. */
  function AuthCalls(req: Http.Request, env: Env, v: Verifier): seq<Http.Call> {
    if BearerAuth.FetchesKeySet(v.codec, req.authorization, env.supabaseUrl, v.now) then [Http.FetchKeySet] else []
  }

  /** readBody: `{}` for GET and for an empty body, None when JSON.parse throws (the promise rejects). */
  function ReadBody(req: Http.Request, json: string -> Option<JsValue>): Option<JsValue> {
    if req.verb == "GET" || req.rawBody == "" then Some(Obj(map[])) else json(req.rawBody)
  }

  /** The request reaches the method dispatch: not a preflight, configured, authorised, and its body parsed. */
  predicate Dispatched(req: Http.Request, env: Env, v: Verifier) {
    req.verb != "OPTIONS" && Configured(env) && Auth(req, env, v).Granted? && ReadBody(req, v.codec.json).Some?
  }

  /** The CORS headers, with the JSON content type when json() answered. */
  predicate HasAdminHeaders(reply: Http.Reply, origin: Option<string>) {
    reply.headers == Cors.AdminHeaders(origin)
    || reply.headers == Cors.AdminHeaders(origin)[Http.ContentType := Http.JsonType]
  }

  function AsCalls(ops: seq<Http.DbOp>): (calls: seq<Http.Call>)
    ensures |calls| == |ops|
    ensures forall i :: 0 <= i < |ops| ==> calls[i] == Http.Query(ops[i])
  {
    seq(|ops|, i requires 0 <= i < |ops| => Http.Query(ops[i]))
  }

  /**
   * Everything before the method dispatch. `reply` is None exactly when the
   * request goes on to the dispatch, with `body`; no database call is made.
   */
  method Preamble(req: Http.Request, env: Env, v: Verifier)
    returns (reply: Option<Http.Reply>, body: JsValue, calls: seq<Http.Call>)
    ensures var h := Cors.AdminHeaders(req.origin);
      && (reply.Some? ==> HasAdminHeaders(reply.value, req.origin))
      && (req.verb == "OPTIONS" ==> reply == Some(Http.Reply(204, h, Http.NoContent)) && calls == [])
      && (req.verb != "OPTIONS" && !Configured(env) ==>
            reply == Some(Http.Json(h, 500, Http.Error("Missing SUPABASE_URL or SERVICE_ROLE env"))) && calls == [])
      && (req.verb != "OPTIONS" && Configured(env) && Auth(req, env, v).Denied? ==>
            reply == Some(Http.Json(h, Auth(req, env, v).status, Http.Denial(Auth(req, env, v).reason)))
            && calls == AuthCalls(req, env, v))
      && (req.verb != "OPTIONS" && Configured(env) && Auth(req, env, v).Granted? ==>
            calls == AuthCalls(req, env, v) + [Http.ReadBody]
            && (ReadBody(req, v.codec.json).None? ==> reply == Some(Http.Json(h, 400, Http.Error("Invalid JSON body")))))
      && (reply.None? <==> Dispatched(req, env, v))
      && (reply.None? ==> body == ReadBody(req, v.codec.json).value)
      && (reply.Some? ==> reply.value.status == 204 || reply.value.status >= 400)
      && Http.ReadBody !in AuthCalls(req, env, v) && !Http.Queries(calls)
  {
    var h := Cors.AdminHeaders(req.origin);
    body := Obj(map[]);
    calls := [];
    if req.verb == "OPTIONS" {
      reply := Some(Http.Reply(204, h, Http.NoContent));
      return;
    }
    if !Configured(env) {
      reply := Some(Http.Json(h, 500, Http.Error("Missing SUPABASE_URL or SERVICE_ROLE env")));
      return;
    }
    calls := AuthCalls(req, env, v);
    var auth := Auth(req, env, v);
    if auth.Denied? {
      BearerAuth.Outcomes(v.codec, v.rsa, req.authorization, env.adminEmails, env.supabaseUrl, v.now, v.jwks);
      reply := Some(Http.Json(h, auth.status, Http.Denial(auth.reason)));
      return;
    }
    calls := calls + [Http.ReadBody];
    var parsed := ReadBody(req, v.codec.json);
    if parsed.None? {
      reply := Some(Http.Json(h, 400, Http.Error("Invalid JSON body")));
      return;
    }
    reply := None;
    body := parsed.value;
  }

  /** The value toggle writes: `!row.ativo`. */
  function Toggled(row: JsValue): JsValue {
    Bool(!Truthy(Get(row, "ativo")))
  }

  /**
   * Toggle writes a boolean of the opposite truthiness; toggling the row it
   * wrote gives back a boolean of the original truthiness, and a stored
   * boolean is restored exactly.
   */
  lemma ToggleTwice(row: JsValue)
    requires row.Obj?
    ensures Toggled(row).Bool? && Toggled(row).b == !Truthy(Get(row, "ativo"))
    ensures var once := Obj(row.fields["ativo" := Toggled(row)]);
      once.Obj? && Toggled(once) == Bool(Truthy(Get(row, "ativo")))
    ensures Get(row, "ativo").Some? && Get(row, "ativo").value.Bool? ==>
      Toggled(Obj(row.fields["ativo" := Toggled(row)])) == Get(row, "ativo").value
  {
  }

  /**
   * What a read-then-write PATCH action did: one select by id; 400 with the
   * read error, or 500 for a row that is not there, and no other call; or
   * the write `next(row)` of the row read, answered with `status` or 400.
   */
  predicate ReadThenWrite(table: string, id: JsValue, db: Http.Db, h: Cors.Headers,
                          next: JsValue -> Http.DbOp, status: int, reply: Http.Reply, ops: seq<Http.DbOp>)
  {
    var read := db(Http.SelectOne(table, "id", id));
    && 1 <= |ops| <= 2 && ops[0] == Http.SelectOne(table, "id", id)
    && (read.error.Some? ==> reply == Http.Json(h, 400, Http.Error(read.error.value)) && |ops| == 1)
    && (read.error.None? && !Http.Readable(read.data) ==> reply == Http.Json(h, 500, Http.ServerError) && |ops| == 1)
    && (read.error.None? && Http.Readable(read.data) ==>
          |ops| == 2 && ops[1] == next(read.data.value) && reply == Http.Answer(h, db(ops[1]), status))
  }

  /** The write of a toggle: the row's `ativo` negated, by id. */
  function ToggleWrite(table: string, id: JsValue): JsValue -> Http.DbOp {
    row => Http.Update(table, map["ativo" := Toggled(row)], "id", id)
  }

  /** The write of a duplicate: the insert of the copy. */
  function DuplicateWrite(table: string, copy: JsValue -> map<string, JsValue>): JsValue -> Http.DbOp {
    row => Http.Insert(table, copy(row))
  }

  /** PATCH toggle: read the row by id, write back the negation of its `ativo`. */
  method Toggle(table: string, id: JsValue, db: Http.Db, h: Cors.Headers)
    returns (reply: Http.Reply, ops: seq<Http.DbOp>)
    ensures ReadThenWrite(table, id, db, h, ToggleWrite(table, id), 200, reply, ops)
  {
    var select := Http.SelectOne(table, "id", id);
    ops := [select];
    var read := db(select);
    if read.error.Some? {
      reply := Http.Json(h, 400, Http.Error(read.error.value));
      return;
    }
    if !Http.Readable(read.data) {
      reply := Http.Json(h, 500, Http.ServerError);
      return;
    }
    var update := Http.Update(table, map["ativo" := Toggled(read.data.value)], "id", id);
    ops := ops + [update];
    reply := Http.Answer(h, db(update), 200);
  }

  /** PATCH duplicate: read the row by id, insert `copy(row)`. */
  method Duplicate(table: string, id: JsValue, db: Http.Db, h: Cors.Headers, copy: JsValue -> map<string, JsValue>)
    returns (reply: Http.Reply, ops: seq<Http.DbOp>)
    ensures ReadThenWrite(table, id, db, h, DuplicateWrite(table, copy), 201, reply, ops)
  {
    var select := Http.SelectOne(table, "id", id);
    ops := [select];
    var read := db(select);
    if read.error.Some? {
      reply := Http.Json(h, 400, Http.Error(read.error.value));
      return;
    }
    if !Http.Readable(read.data) {
      reply := Http.Json(h, 500, Http.ServerError);
      return;
    }
    var insert := Http.Insert(table, copy(read.data.value));
    ops := ops + [insert];
    reply := Http.Answer(h, db(insert), 201);
  }

  /** The PATCH request names an action and an id, both truthy. */
  predicate ActionGiven(body: JsValue) {
    Truthy(Get(body, "action")) && Truthy(Get(body, "id"))
  }

  /**
   * The PATCH branch: both `action` and `id` are required, the action must be
   * "toggle" or "duplicate", and anything else is refused before the database
   * is asked anything.
   */
  method Act(table: string, body: JsValue, db: Http.Db, h: Cors.Headers, copy: JsValue -> map<string, JsValue>)
    returns (reply: Http.Reply, ops: seq<Http.DbOp>)
    requires !body.Null?
    ensures var action, id := Get(body, "action"), Get(body, "id");
      && (!ActionGiven(body) ==> reply == Http.Json(h, 400, Http.Error("action e id são obrigatórios")) && ops == [])
      && (ActionGiven(body) && action != Some(Str("toggle")) && action != Some(Str("duplicate")) ==>
            reply == Http.Json(h, 400, Http.Error("action inválida")) && ops == [])
      && (ActionGiven(body) && action == Some(Str("toggle")) ==>
            ReadThenWrite(table, id.value, db, h, ToggleWrite(table, id.value), 200, reply, ops))
      && (ActionGiven(body) && action == Some(Str("duplicate")) ==>
            ReadThenWrite(table, id.value, db, h, DuplicateWrite(table, copy), 201, reply, ops))
    ensures reply.headers == h[Http.ContentType := Http.JsonType]
    ensures 200 <= reply.status < 300 ==> ops != []
  {
    var action, id := Get(body, "action"), Get(body, "id");
    if !Truthy(action) || !Truthy(id) {
      reply := Http.Json(h, 400, Http.Error("action e id são obrigatórios"));
      ops := [];
    } else if StrictEquals(action, Some(Str("toggle"))) {
      reply, ops := Toggle(table, id.value, db, h);
    } else if StrictEquals(action, Some(Str("duplicate"))) {
      reply, ops := Duplicate(table, id.value, db, h, copy);
    } else {
      reply := Http.Json(h, 400, Http.Error("action inválida"));
      ops := [];
    }
  }

  /** DELETE: `id` from the body is required; the row with that id is deleted. */
  method Remove(table: string, body: JsValue, db: Http.Db, h: Cors.Headers)
    returns (reply: Http.Reply, ops: seq<Http.DbOp>)
    requires !body.Null?
    ensures var id := Get(body, "id");
      && (!Truthy(id) ==> reply == Http.Json(h, 400, Http.Error("id é obrigatório")) && ops == [])
      && (Truthy(id) ==>
            (ops == [Http.Delete(table, "id", id.value)]
             && reply == (if db(ops[0]).error.Some? then Http.Json(h, 400, Http.Error(db(ops[0]).error.value))
                          else Http.Json(h, 200, Http.Done))))
    ensures reply.headers == h[Http.ContentType := Http.JsonType]
  {
    var id := Get(body, "id");
    if !Truthy(id) {
      reply := Http.Json(h, 400, Http.Error("id é obrigatório"));
      ops := [];
      return;
    }
    var op := Http.Delete(table, "id", id.value);
    ops := [op];
    var r := db(op);
    if r.error.Some? {
      reply := Http.Json(h, 400, Http.Error(r.error.value));
    } else {
      reply := Http.Json(h, 200, Http.Done);
    }
  }
}
