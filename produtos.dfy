/**
 * The handler of produtos.js: CORS with exact origins, requireAdmin before
 * anything else, then GET lists products (filtered by client and category),
 * POST creates one with trimmed text fields, PATCH updates by id with a patch
 * of the supplied fields, DELETE removes the product named by `?id=`.
 */
module Produtos {
  import opened Js
  import Cors
  import Http
  import RemoteAdmin

  const Table := "produtos"
  /** The PATCH fields: text trimmed, a falsy descricao or imagem_url as "", `Number(preco) || 0`, `Boolean(ativo)`. */
  const PatchFields: seq<Http.Field> := [
    Http.Field("cliente_slug", Http.TrimmedText), Http.Field("categoria_id", Http.AsIs),
    Http.Field("nome", Http.TrimmedText), Http.Field("descricao", Http.TextOrEmpty),
    Http.Field("preco", Http.NumberOrZero), Http.Field("imagem_url", Http.TextOrEmpty),
    Http.Field("ativo", Http.Boolean)]
  const InvalidJsonKey := "__invalidJson"

  /** The process.env values: SUPABASE_URL, SUPABASE_ANON_KEY, SUPABASE_SERVICE_ROLE_KEY, ADMIN_EMAILS. */
  datatype Env = Env(supabaseUrl: Option<string>, anonKey: Option<string>, serviceRole: Option<string>, adminEmails: Option<string>)

  function Auth(req: Http.Request, env: Env, lookup: RemoteAdmin.UserLookup): RemoteAdmin.AdminResult {
    RemoteAdmin.RequireAdmin(env.supabaseUrl, env.anonKey, env.adminEmails, req.authorization, lookup)
  }

  /** requireAdmin asks the authentication service only once it has a configuration and a token. */
  function AuthCalls(req: Http.Request, env: Env): seq<Http.Call> {
    if RemoteAdmin.Configured(env.supabaseUrl, env.anonKey) && RemoteAdmin.PrefixToken(req.authorization).Some?
    then [Http.LookupUser] else []
  }

  /**
   * readBody: `{}` for GET, DELETE and an empty body; a body JSON.parse
   * refuses becomes the sentinel `{ __invalidJson: true }`; it never rejects.
   */
  function ReadBody(req: Http.Request, json: string -> Option<JsValue>): JsValue {
    if req.verb == "GET" || req.verb == "DELETE" || req.rawBody == "" then Obj(map[])
    else match json(req.rawBody)
      case None => Obj(map[InvalidJsonKey := Bool(true)])
      case Some(v) => v
  }

  /** `String(v || "").trim()` of a possibly undefined value */
  function OptionalText(v: Option<JsValue>): JsValue {
    if v.None? then Str("") else Http.Coerce(Http.TextOrEmpty, v.value)
  }

  /** The row POST inserts, with the defaults `descricao = ""`, `preco = 0`, `imagem_url = ""`, `ativo = true`. */
  function NewRow(body: JsValue): map<string, JsValue> {
    var ativo := Get(body, "ativo");
    var base := map[
      "cliente_slug" := Http.Coerce(Http.TrimmedText, if Get(body, "cliente_slug").None? then Str("undefined") else Get(body, "cliente_slug").value),
      "nome" := Http.Coerce(Http.TrimmedText, if Get(body, "nome").None? then Str("undefined") else Get(body, "nome").value),
      "descricao" := OptionalText(Get(body, "descricao")),
      "preco" := Num(NumberOrZero(Get(body, "preco"))),
      "imagem_url" := OptionalText(Get(body, "imagem_url")),
      "ativo" := Bool(ativo.None? || Truthy(ativo))];
    Http.WithDefined(base, "categoria_id", Get(body, "categoria_id"))
  }

  /** `(q.name || "").trim()`, a filter only when non-empty. */
  function QueryFilter(q: map<string, string>, name: string): seq<(string, string)> {
    var value := if name in q then Trim(q[name]) else "";
    if value != "" then [(name, value)] else []
  }

  function ListFilters(q: map<string, string>): seq<(string, string)> {
    QueryFilter(q, "cliente_slug") + QueryFilter(q, "categoria_id")
  }

  predicate TextField(k: string) {
    k == "cliente_slug" || k == "nome" || k == "descricao" || k == "imagem_url"
  }

  lemma PatchFieldNames()
    ensures Http.DistinctNames(PatchFields) && |PatchFields| == 7
    ensures PatchFields[0].coercion == Http.TrimmedText && PatchFields[1].coercion == Http.AsIs
    ensures PatchFields[2].coercion == Http.TrimmedText && PatchFields[3].coercion == Http.TextOrEmpty
    ensures PatchFields[4].coercion == Http.NumberOrZero && PatchFields[5].coercion == Http.TextOrEmpty
    ensures PatchFields[6].coercion == Http.Boolean
    ensures PatchFields[0].name == "cliente_slug" && PatchFields[1].name == "categoria_id"
    ensures PatchFields[2].name == "nome" && PatchFields[3].name == "descricao"
    ensures PatchFields[4].name == "preco" && PatchFields[5].name == "imagem_url" && PatchFields[6].name == "ativo"
    ensures forall i :: 0 <= i < |PatchFields| && TextField(PatchFields[i].name) ==>
      PatchFields[i].coercion == Http.TrimmedText || PatchFields[i].coercion == Http.TextOrEmpty
  {
  }

  /** The PATCH patch holds exactly the fields the body defines. */
  lemma PatchKeys(body: JsValue)
    ensures var p := Http.Supplied(body, PatchFields);
      forall k :: k in p <==> (TextField(k) || k == "categoria_id" || k == "preco" || k == "ativo") && Get(body, k).Some?
  {
    var p := Http.Supplied(body, PatchFields);
    PatchFieldNames();
    Http.SuppliedMeaning(body, PatchFields);
    forall k | k in p ensures TextField(k) || k == "categoria_id" || k == "preco" || k == "ativo" {
      var i :| 0 <= i < |PatchFields| && PatchFields[i].name == k;
    }
  }

  /**
   * The PATCH patch's text fields are strings already trimmed, a falsy
   * descricao or imagem_url is "", the price a number and the state a boolean.
   */
  lemma PatchValues(body: JsValue)
    ensures var p := Http.Supplied(body, PatchFields);
      && (forall k :: k in p && TextField(k) ==> p[k].Str? && Trim(p[k].s) == p[k].s)
      && (forall k :: k in p && (k == "descricao" || k == "imagem_url") && !Truthy(Get(body, k)) ==> p[k] == Str(""))
      && ("categoria_id" in p ==> Get(body, "categoria_id") == Some(p["categoria_id"]))
      && ("preco" in p ==> p["preco"] == Num(NumberOrZero(Get(body, "preco"))))
      && ("ativo" in p ==> p["ativo"] == Bool(Truthy(Get(body, "ativo"))))
  {
    var p := Http.Supplied(body, PatchFields);
    PatchFieldNames();
    Http.SuppliedMeaning(body, PatchFields);
    forall k | k in p && TextField(k) ensures p[k].Str? && Trim(p[k].s) == p[k].s {
      var i :| 0 <= i < |PatchFields| && PatchFields[i].name == k;
      Http.CoercedTextTrimmed(PatchFields[i].coercion, Get(body, k).value);
    }
  }

  predicate TrimmedString(v: JsValue) {
    v.Str? && Trim(v.s) == v.s
  }

  /** The created row's slug and name are strings with nothing left to trim. */
  lemma NewRowNames(body: JsValue)
    ensures var row := NewRow(body);
      TrimmedString(row["cliente_slug"]) && TrimmedString(row["nome"])
  {
    var row := NewRow(body);
    var slug, nome := Get(body, "cliente_slug"), Get(body, "nome");
    var s := if slug.None? then Str("undefined") else slug.value;
    var n := if nome.None? then Str("undefined") else nome.value;
    assert row["cliente_slug"] == Http.Coerce(Http.TrimmedText, s);
    assert row["nome"] == Http.Coerce(Http.TrimmedText, n);
    Http.CoercedTextTrimmed(Http.TrimmedText, s);
    Http.CoercedTextTrimmed(Http.TrimmedText, n);
  }

  /**
   * The created row's description and image address are strings with nothing
   * left to trim, "" when the body's value is falsy.
   */
  lemma NewRowOptionalTexts(body: JsValue)
    ensures var row := NewRow(body);
      && TrimmedString(row["descricao"]) && TrimmedString(row["imagem_url"])
      && (!Truthy(Get(body, "descricao")) ==> row["descricao"] == Str(""))
      && (!Truthy(Get(body, "imagem_url")) ==> row["imagem_url"] == Str(""))
  {
    var row := NewRow(body);
    var descricao, imagemUrl := Get(body, "descricao"), Get(body, "imagem_url");
    assert row["descricao"] == OptionalText(descricao);
    assert row["imagem_url"] == OptionalText(imagemUrl);
    if descricao.Some? { Http.CoercedTextTrimmed(Http.TextOrEmpty, descricao.value); }
    if imagemUrl.Some? { Http.CoercedTextTrimmed(Http.TextOrEmpty, imagemUrl.value); }
  }

  /**
   * In the created row the price is the body's value as a number, 0 when it
   * is left out or not a number; the state is a boolean, false only when the
   * body gives a falsy one; a given categoria_id is kept as it is.
   */
  lemma NewRowDefaults(body: JsValue)
    ensures var row, preco, ativo := NewRow(body), Get(body, "preco"), Get(body, "ativo");
      && row["preco"].Num?
      && (preco.Some? && ToNumber(preco.value).Some? ==> row["preco"].n == ToNumber(preco.value).value)
      && (preco.None? || ToNumber(preco.value).None? ==> row["preco"].n == 0)
      && row["ativo"].Bool?
      && (row["ativo"].b <==> ativo.None? || Truthy(ativo))
      && (Get(body, "categoria_id").Some? ==> row["categoria_id"] == Get(body, "categoria_id").value)
  {
    var row := NewRow(body);
    assert row["preco"] == Num(NumberOrZero(Get(body, "preco")));
    assert row["ativo"] == Bool(Get(body, "ativo").None? || Truthy(Get(body, "ativo")));
  }

  /**
   * Parsing never fails outright; a refused body and a body that really
   * holds a truthy `__invalidJson` are answered alike.
   */
  lemma SentinelMeaning(req: Http.Request, json: string -> Option<JsValue>)
    ensures var b := ReadBody(req, json);
      Truthy(Get(b, InvalidJsonKey)) <==>
        req.verb != "GET" && req.verb != "DELETE" && req.rawBody != ""
        && (json(req.rawBody).None? || Truthy(Get(json(req.rawBody).value, InvalidJsonKey)))
  {
  }

  /** The first three `if (body.k !== undefined)` steps of the PATCH builder. */
  method BuildPatchHead(body: JsValue) returns (patch: map<string, JsValue>)
    ensures patch == Http.Supplied(body, PatchFields[..3])
  {
    patch := map[];
    assert PatchFields[..0] == [];
    Http.SuppliedStep(body, PatchFields, 0, patch);
    var clienteSlug := Get(body, "cliente_slug");
    if clienteSlug.Some? { patch := patch["cliente_slug" := Http.Coerce(Http.TrimmedText, clienteSlug.value)]; }
    Http.SuppliedStep(body, PatchFields, 1, patch);
    var categoriaId := Get(body, "categoria_id");
    if categoriaId.Some? { patch := patch["categoria_id" := categoriaId.value]; }
    Http.SuppliedStep(body, PatchFields, 2, patch);
    var nome := Get(body, "nome");
    if nome.Some? { patch := patch["nome" := Http.Coerce(Http.TrimmedText, nome.value)]; }
  }

  /** The PATCH patch, field by field. */
  method BuildPatch(body: JsValue) returns (patch: map<string, JsValue>)
    ensures patch == Http.Supplied(body, PatchFields)
  {
    patch := BuildPatchHead(body);
    Http.SuppliedStep(body, PatchFields, 3, patch);
    var descricao := Get(body, "descricao");
    if descricao.Some? { patch := patch["descricao" := Http.Coerce(Http.TextOrEmpty, descricao.value)]; }
    Http.SuppliedStep(body, PatchFields, 4, patch);
    var preco := Get(body, "preco");
    if preco.Some? { patch := patch["preco" := Num(NumberOrZero(preco))]; }
    Http.SuppliedStep(body, PatchFields, 5, patch);
    var imagemUrl := Get(body, "imagem_url");
    if imagemUrl.Some? { patch := patch["imagem_url" := Http.Coerce(Http.TextOrEmpty, imagemUrl.value)]; }
    Http.SuppliedStep(body, PatchFields, 6, patch);
    var ativo := Get(body, "ativo");
    if ativo.Some? { patch := patch["ativo" := Bool(Truthy(ativo))]; }
    assert PatchFields[..7] == PatchFields;
  }

  method List(q: map<string, string>, db: Http.Db, h: Cors.Headers) returns (reply: Http.Reply, ops: seq<Http.DbOp>)
    ensures ops == [Http.List(Table, ListFilters(q))]
    ensures reply == Http.Answer(h, db(ops[0]), 200)
    ensures reply.headers == h[Http.ContentType := Http.JsonType]
  {
    var op := Http.List(Table, ListFilters(q));
    ops := [op];
    reply := Http.Answer(h, db(op), 200);
  }

  predicate HasRequired(body: JsValue) {
    Truthy(Get(body, "cliente_slug")) && Truthy(Get(body, "categoria_id")) && Truthy(Get(body, "nome"))
  }

  method Create(body: JsValue, db: Http.Db, h: Cors.Headers) returns (reply: Http.Reply, ops: seq<Http.DbOp>)
    ensures !HasRequired(body) ==>
      reply == Http.Json(h, 400, Http.Error("Campos obrigatórios: cliente_slug, categoria_id, nome")) && ops == []
    ensures HasRequired(body) ==>
      ops == [Http.Insert(Table, NewRow(body))]
      && reply == Http.Answer(h, db(ops[0]), 201)
    ensures reply.headers == h[Http.ContentType := Http.JsonType]
  {
    if !HasRequired(body) {
      reply := Http.Json(h, 400, Http.Error("Campos obrigatórios: cliente_slug, categoria_id, nome"));
      ops := [];
      return;
    }
    var op := Http.Insert(Table, NewRow(body));
    ops := [op];
    reply := Http.Answer(h, db(op), 201);
  }

  method Edit(body: JsValue, db: Http.Db, h: Cors.Headers) returns (reply: Http.Reply, ops: seq<Http.DbOp>)
    ensures !Truthy(Get(body, "id")) ==> reply == Http.Json(h, 400, Http.Error("id é obrigatório para atualizar")) && ops == []
    ensures Truthy(Get(body, "id")) ==>
      ops == [Http.Update(Table, Http.Supplied(body, PatchFields), "id", Get(body, "id").value)]
      && reply == Http.Answer(h, db(ops[0]), 200)
    ensures reply.headers == h[Http.ContentType := Http.JsonType]
  {
    var id := Get(body, "id");
    if !Truthy(id) {
      reply := Http.Json(h, 400, Http.Error("id é obrigatório para atualizar"));
      ops := [];
      return;
    }
    var patch := BuildPatch(body);
    var op := Http.Update(Table, patch, "id", id.value);
    ops := [op];
    reply := Http.Answer(h, db(op), 200);
  }

  /** DELETE: the id comes from the query string; the body plays no part. */
  method Remove(q: map<string, string>, db: Http.Db, h: Cors.Headers) returns (reply: Http.Reply, ops: seq<Http.DbOp>)
    ensures !("id" in q && q["id"] != "") ==> reply == Http.Json(h, 400, Http.Error("Passe ?id= no querystring")) && ops == []
    ensures "id" in q && q["id"] != "" ==>
      ops == [Http.Delete(Table, "id", Str(q["id"]))]
      && reply == (if db(ops[0]).error.Some? then Http.Json(h, 400, Http.Error(db(ops[0]).error.value))
                   else Http.Json(h, 200, Http.Done))
    ensures reply.headers == h[Http.ContentType := Http.JsonType]
  {
    if !("id" in q && q["id"] != "") {
      reply := Http.Json(h, 400, Http.Error("Passe ?id= no querystring"));
      ops := [];
      return;
    }
    var op := Http.Delete(Table, "id", Str(q["id"]));
    ops := [op];
    var r := db(op);
    if r.error.Some? {
      reply := Http.Json(h, 400, Http.Error(r.error.value));
    } else {
      reply := Http.Json(h, 200, Http.Done);
    }
  }

  predicate Known(verb: string) {
    verb == "GET" || verb == "POST" || verb == "PATCH" || verb == "DELETE"
  }

  /** The request reaches the method dispatch: an admin, a service key, and a body that is not the sentinel. */
  predicate Dispatched(req: Http.Request, env: Env, lookup: RemoteAdmin.UserLookup, json: string -> Option<JsValue>) {
    var body := ReadBody(req, json);
    req.verb != "OPTIONS" && Auth(req, env, lookup).Admin?
    && env.serviceRole.Some? && env.serviceRole.value != ""
    && !body.Null? && !Truthy(Get(body, InvalidJsonKey))
  }

  /** The CORS headers, with the JSON content type when json() answered. */
  predicate HasProductHeaders(reply: Http.Reply, origin: Option<string>) {
    reply.headers == Cors.ProductHeaders(origin)
    || reply.headers == Cors.ProductHeaders(origin)[Http.ContentType := Http.JsonType]
  }

  /** Everything before the method dispatch; `reply` is None exactly when the request is dispatched. */
  method Preamble(req: Http.Request, env: Env, lookup: RemoteAdmin.UserLookup, json: string -> Option<JsValue>)
    returns (reply: Option<Http.Reply>, body: JsValue, calls: seq<Http.Call>)
    ensures var h, auth := Cors.ProductHeaders(req.origin), Auth(req, env, lookup);
      && (reply.Some? ==> HasProductHeaders(reply.value, req.origin))
      && (req.verb == "OPTIONS" ==> reply == Some(Http.Reply(204, h, Http.NoContent)) && calls == [])
      && (req.verb != "OPTIONS" && auth.Refused? ==>
            reply == Some(Http.Json(h, auth.status, Http.Error(auth.error))) && calls == AuthCalls(req, env))
      && (req.verb != "OPTIONS" && auth.Thrown? ==> reply == Some(Http.Reply(500, h, Http.Uncaught)) && calls == AuthCalls(req, env))
      && (req.verb != "OPTIONS" && auth.Admin? && !(env.serviceRole.Some? && env.serviceRole.value != "") ==>
            reply == Some(Http.Reply(500, h, Http.Uncaught)) && calls == AuthCalls(req, env))
      && (req.verb != "OPTIONS" && auth.Admin? && env.serviceRole.Some? && env.serviceRole.value != "" ==>
            calls == AuthCalls(req, env) + [Http.ReadBody]
            && (ReadBody(req, json).Null? ==> reply == Some(Http.Reply(500, h, Http.Uncaught)))
            && (!ReadBody(req, json).Null? && Truthy(Get(ReadBody(req, json), InvalidJsonKey)) ==>
                  reply == Some(Http.Json(h, 400, Http.Error("Invalid JSON body")))))
      && (reply.None? <==> Dispatched(req, env, lookup, json))
      && (reply.None? ==> body == ReadBody(req, json))
      && (reply.Some? ==> reply.value.status == 204 || reply.value.status >= 400)
      && Http.ReadBody !in AuthCalls(req, env) && !Http.Queries(calls)
  {
    var h := Cors.ProductHeaders(req.origin);
    body := Obj(map[]);
    calls := [];
    if req.verb == "OPTIONS" {
      reply := Some(Http.Reply(204, h, Http.NoContent));
      return;
    }
    calls := AuthCalls(req, env);
    var auth := Auth(req, env, lookup);
    if auth.Thrown? {
      reply := Some(Http.Reply(500, h, Http.Uncaught));
      return;
    }
    if auth.Refused? {
      assert auth.status == 401 || auth.status == 403;
      reply := Some(Http.Json(h, auth.status, Http.Error(auth.error)));
      return;
    }
    if !(env.serviceRole.Some? && env.serviceRole.value != "") {
      // supabaseAdmin() throws outside the try
      reply := Some(Http.Reply(500, h, Http.Uncaught));
      return;
    }
    calls := calls + [Http.ReadBody];
    body := ReadBody(req, json);
    if body.Null? {
      // reading __invalidJson of null throws outside the try
      reply := Some(Http.Reply(500, h, Http.Uncaught));
      return;
    }
    if Truthy(Get(body, InvalidJsonKey)) {
      reply := Some(Http.Json(h, 400, Http.Error("Invalid JSON body")));
      return;
    }
    reply := None;
  }

  method Dispatch(verb: string, q: map<string, string>, body: JsValue, db: Http.Db, h: Cors.Headers)
    returns (reply: Http.Reply, ops: seq<Http.DbOp>)
    ensures !Known(verb) ==> reply == Http.Json(h, 405, Http.Error("Method not allowed")) && ops == []
    ensures verb == "GET" ==> ops == [Http.List(Table, ListFilters(q))]
    ensures verb == "POST" ==> (ops == [] <==> !HasRequired(body)) && (ops != [] ==> ops == [Http.Insert(Table, NewRow(body))])
    ensures verb == "PATCH" ==>
      (ops == [] <==> !Truthy(Get(body, "id")))
      && (ops != [] ==> ops == [Http.Update(Table, Http.Supplied(body, PatchFields), "id", Get(body, "id").value)])
    ensures verb == "DELETE" ==>
      (ops == [] <==> !("id" in q && q["id"] != ""))
      && (ops != [] ==> ops == [Http.Delete(Table, "id", Str(q["id"]))])
    ensures Known(verb) && ops == [] ==> reply.status == 400
    ensures reply.headers == h[Http.ContentType := Http.JsonType]
    ensures 200 <= reply.status < 300 ==> |ops| == 1
  {
    if verb == "GET" {
      reply, ops := List(q, db, h);
    } else if verb == "POST" {
      reply, ops := Create(body, db, h);
    } else if verb == "PATCH" {
      reply, ops := Edit(body, db, h);
    } else if verb == "DELETE" {
      reply, ops := Remove(q, db, h);
    } else {
      reply := Http.Json(h, 405, Http.Error("Method not allowed"));
      ops := [];
    }
  }

  /**
   * The whole handler. Authorisation comes first: the body is read only for
   * an admin, and the database reached only by a dispatched request.
   * `lookup` is what getUser answers for the request's token.
   */
  method Handle(req: Http.Request, env: Env, lookup: RemoteAdmin.UserLookup, json: string -> Option<JsValue>, db: Http.Db)
    returns (reply: Http.Reply, calls: seq<Http.Call>)
    ensures HasProductHeaders(reply, req.origin)
    ensures req.verb == "OPTIONS" ==> reply.status == 204 && calls == []
    ensures Http.ReadBody in calls ==> Auth(req, env, lookup).Admin?
    ensures Http.Queries(calls) ==> Dispatched(req, env, lookup, json)
    ensures 200 <= reply.status < 300 && reply.status != 204 ==> Dispatched(req, env, lookup, json) && Http.Queries(calls)
    ensures Dispatched(req, env, lookup, json) ==>
      var body, before := ReadBody(req, json), AuthCalls(req, env) + [Http.ReadBody];
      && (!Known(req.verb) ==> reply.status == 405 && calls == before)
      && (req.verb == "DELETE" ==>
            calls == before + (if "id" in req.query && req.query["id"] != "" then [Http.Query(Http.Delete(Table, "id", Str(req.query["id"])))] else []))
      && (req.verb == "PATCH" && Truthy(Get(body, "id")) ==>
            calls == before + [Http.Query(Http.Update(Table, Http.Supplied(body, PatchFields), "id", Get(body, "id").value))])
      && (req.verb == "POST" ==>
            calls == before + (if HasRequired(body) then [Http.Query(Http.Insert(Table, NewRow(body)))] else []))
  {
    var early, body, pre := Preamble(req, env, lookup, json);
    calls := pre;
    if early.Some? {
      reply := early.value;
      return;
    }
    var ops: seq<Http.DbOp>;
    reply, ops := Dispatch(req.verb, req.query, body, db, Cors.ProductHeaders(req.origin));
    assert pre == AuthCalls(req, env) + [Http.ReadBody];
    var queries := if ops == [] then [] else [Http.Query(ops[0])];
    calls := calls + queries;
    if ops != [] {
      assert calls[|pre|] == Http.Query(ops[0]);
    }
  }
}
