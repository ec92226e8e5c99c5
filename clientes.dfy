/**
 * The handler of clientes.js: after the shared preamble, GET lists the
 * clients, POST creates one (nome and slug required), PUT updates by id with
 * a patch of the supplied fields, PATCH toggles or duplicates, DELETE removes.
 */
module Clientes {
  import opened Js
  import Cors
  import Http
  import AdminCrud

  const Table := "clientes"
  /** The PUT fields: `whatsapp || null`, `!!ativo`, the others as given. */
  const PutFields: seq<Http.Field> := [
    Http.Field("nome", Http.AsIs), Http.Field("slug", Http.AsIs),
    Http.Field("whatsapp", Http.NullIfFalsy), Http.Field("ativo", Http.Boolean)]

  /** The row POST inserts: `{ nome, slug, whatsapp: whatsapp || null, ativo }`, `ativo` defaulting to true. */
  function NewRow(body: JsValue): map<string, JsValue> {
    var whatsapp := Get(body, "whatsapp");
    var ativo := Get(body, "ativo");
    var base := map["whatsapp" := (if Truthy(whatsapp) then whatsapp.value else Null),
                    "ativo" := (if ativo.None? then Bool(true) else ativo.value)];
    Http.WithDefined(Http.WithDefined(base, "nome", Get(body, "nome")), "slug", Get(body, "slug"))
  }

  /** The row duplicate inserts: the copy's name and a slug made unique with the clock (milliseconds). */
  function CopyOf(nowMs: nat): JsValue -> map<string, JsValue> {
    row =>
      var base := map["nome" := Str(Http.Template(Get(row, "nome")) + " (cópia)"),
                      "slug" := Str(Http.Template(Get(row, "slug")) + "-copia-" + NatToString(nowMs))];
      Http.WithDefined(Http.WithDefined(base, "whatsapp", Get(row, "whatsapp")), "ativo", Get(row, "ativo"))
  }

  /** The PUT patch, field by field. */
  method BuildPatch(body: JsValue) returns (patch: map<string, JsValue>)
    ensures patch == Http.Supplied(body, PutFields)
  {
    patch := map[];
    assert PutFields[..0] == [];
    Http.SuppliedStep(body, PutFields, 0, patch);
    var nome := Get(body, "nome");
    if nome.Some? { patch := patch["nome" := nome.value]; }
    Http.SuppliedStep(body, PutFields, 1, patch);
    var slug := Get(body, "slug");
    if slug.Some? { patch := patch["slug" := slug.value]; }
    Http.SuppliedStep(body, PutFields, 2, patch);
    var whatsapp := Get(body, "whatsapp");
    if whatsapp.Some? { patch := patch["whatsapp" := if Truthy(whatsapp) then whatsapp.value else Null]; }
    Http.SuppliedStep(body, PutFields, 3, patch);
    var ativo := Get(body, "ativo");
    if ativo.Some? { patch := patch["ativo" := Bool(Truthy(ativo))]; }
    assert PutFields[..4] == PutFields;
  }

  /**
   * The PUT patch holds exactly the four fields the body defines, `ativo` as a
   * boolean and `whatsapp` as null when falsy, and neither `id` nor any other key.
   */
  lemma PutPatchMeaning(body: JsValue)
    ensures var p := Http.Supplied(body, PutFields);
      && (forall k :: k in p <==> (k == "nome" || k == "slug" || k == "whatsapp" || k == "ativo") && Get(body, k).Some?)
      && ("nome" in p ==> p["nome"] == Get(body, "nome").value)
      && ("slug" in p ==> p["slug"] == Get(body, "slug").value)
      && ("whatsapp" in p ==> (p["whatsapp"] == Get(body, "whatsapp").value && Truthy(Get(body, "whatsapp"))) || p["whatsapp"] == Null)
      && ("ativo" in p ==> p["ativo"] == Bool(Truthy(Get(body, "ativo"))))
  {
    Http.SuppliedMeaning(body, PutFields);
    var p := Http.Supplied(body, PutFields);
    forall k | k in p ensures k == "nome" || k == "slug" || k == "whatsapp" || k == "ativo" {
      var i :| 0 <= i < |PutFields| && PutFields[i].name == k;
    }
    assert PutFields[0].name == "nome" && PutFields[1].name == "slug";
    assert PutFields[2].name == "whatsapp" && PutFields[3].name == "ativo";
  }

  method List(db: Http.Db, h: Cors.Headers) returns (reply: Http.Reply, ops: seq<Http.DbOp>)
    ensures ops == [Http.List(Table, [])]
    ensures reply == Http.Answer(h, db(ops[0]), 200)
    ensures reply.headers == h[Http.ContentType := Http.JsonType]
  {
    var op := Http.List(Table, []);
    ops := [op];
    reply := Http.Answer(h, db(op), 200);
  }

  method Create(body: JsValue, db: Http.Db, h: Cors.Headers) returns (reply: Http.Reply, ops: seq<Http.DbOp>)
    requires !body.Null?
    ensures !Truthy(Get(body, "nome")) || !Truthy(Get(body, "slug")) ==>
      reply == Http.Json(h, 400, Http.Error("nome e slug são obrigatórios")) && ops == []
    ensures Truthy(Get(body, "nome")) && Truthy(Get(body, "slug")) ==>
      ops == [Http.Insert(Table, NewRow(body))]
      && reply == Http.Answer(h, db(ops[0]), 201)
    ensures reply.headers == h[Http.ContentType := Http.JsonType]
  {
    if !Truthy(Get(body, "nome")) || !Truthy(Get(body, "slug")) {
      reply := Http.Json(h, 400, Http.Error("nome e slug são obrigatórios"));
      ops := [];
      return;
    }
    var op := Http.Insert(Table, NewRow(body));
    ops := [op];
    reply := Http.Answer(h, db(op), 201);
  }

  method Edit(body: JsValue, db: Http.Db, h: Cors.Headers) returns (reply: Http.Reply, ops: seq<Http.DbOp>)
    requires !body.Null?
    ensures !Truthy(Get(body, "id")) ==> reply == Http.Json(h, 400, Http.Error("id é obrigatório")) && ops == []
    ensures Truthy(Get(body, "id")) ==>
      ops == [Http.Update(Table, Http.Supplied(body, PutFields), "id", Get(body, "id").value)]
      && reply == Http.Answer(h, db(ops[0]), 200)
    ensures reply.headers == h[Http.ContentType := Http.JsonType]
  {
    var id := Get(body, "id");
    if !Truthy(id) {
      reply := Http.Json(h, 400, Http.Error("id é obrigatório"));
      ops := [];
      return;
    }
    var patch := BuildPatch(body);
    var op := Http.Update(Table, patch, "id", id.value);
    ops := [op];
    reply := Http.Answer(h, db(op), 200);
  }

  predicate Known(verb: string) {
    verb == "GET" || verb == "POST" || verb == "PUT" || verb == "PATCH" || verb == "DELETE"
  }

  /** A 400 the handler gives before any database call, for want of a required field or a valid action. */
  predicate MissingInput(verb: string, body: JsValue) {
    (verb == "POST" && (!Truthy(Get(body, "nome")) || !Truthy(Get(body, "slug"))))
    || ((verb == "PUT" || verb == "DELETE") && !Truthy(Get(body, "id")))
    || (verb == "PATCH" && (!Truthy(Get(body, "action")) || !Truthy(Get(body, "id"))
          || (Get(body, "action") != Some(Str("toggle")) && Get(body, "action") != Some(Str("duplicate")))))
  }

  /** The method dispatch inside the handler's try, on a parsed body. */
  method Dispatch(verb: string, body: JsValue, db: Http.Db, h: Cors.Headers, nowMs: nat)
    returns (reply: Http.Reply, ops: seq<Http.DbOp>)
    ensures !Known(verb) ==> reply == Http.Json(h, 405, Http.Error("Method not allowed")) && ops == []
    ensures verb != "GET" && Known(verb) && body.Null? ==> reply == Http.Json(h, 500, Http.ServerError) && ops == []
    ensures verb == "GET" ==> ops == [Http.List(Table, [])]
    ensures verb == "PUT" && !body.Null? && Truthy(Get(body, "id")) ==>
      ops == [Http.Update(Table, Http.Supplied(body, PutFields), "id", Get(body, "id").value)]
    ensures verb == "POST" && !body.Null? && Truthy(Get(body, "nome")) && Truthy(Get(body, "slug")) ==>
      ops == [Http.Insert(Table, NewRow(body))]
    ensures verb == "PATCH" && !body.Null? && AdminCrud.ActionGiven(body) && Get(body, "action") == Some(Str("toggle")) ==>
      AdminCrud.ReadThenWrite(Table, Get(body, "id").value, db, h, AdminCrud.ToggleWrite(Table, Get(body, "id").value), 200, reply, ops)
    ensures verb == "PATCH" && !body.Null? && AdminCrud.ActionGiven(body) && Get(body, "action") == Some(Str("duplicate")) ==>
      AdminCrud.ReadThenWrite(Table, Get(body, "id").value, db, h, AdminCrud.DuplicateWrite(Table, CopyOf(nowMs)), 201, reply, ops)
    ensures verb != "GET" && Known(verb) && !body.Null? ==> (ops == [] <==> MissingInput(verb, body))
    ensures verb != "GET" && Known(verb) && !body.Null? && MissingInput(verb, body) ==> reply.status == 400
    ensures reply.headers == h[Http.ContentType := Http.JsonType]
    ensures 200 <= reply.status < 300 ==> ops != []
  {
    if verb == "GET" {
      reply, ops := List(db, h);
    } else if !Known(verb) {
      reply := Http.Json(h, 405, Http.Error("Method not allowed"));
      ops := [];
    } else if body.Null? {
      // destructuring null throws inside the try
      reply := Http.Json(h, 500, Http.ServerError);
      ops := [];
    } else if verb == "POST" {
      reply, ops := Create(body, db, h);
    } else if verb == "PUT" {
      reply, ops := Edit(body, db, h);
    } else if verb == "PATCH" {
      reply, ops := AdminCrud.Act(Table, body, db, h, CopyOf(nowMs));
    } else {
      reply, ops := AdminCrud.Remove(Table, body, db, h);
    }
  }

  /**
   * The whole handler. `nowMs` is Date.now() for the duplicate's slug. The
   * body is only read, and the database only reached, for a request that
   * requireAuth let through; a 2xx answer other than the preflight's needs a
   * parsed body and a database call.
   */
  method Handle(req: Http.Request, env: AdminCrud.Env, v: AdminCrud.Verifier, db: Http.Db, nowMs: nat)
    returns (reply: Http.Reply, calls: seq<Http.Call>)
    ensures AdminCrud.HasAdminHeaders(reply, req.origin)
    ensures req.verb == "OPTIONS" ==> reply.status == 204 && calls == []
    ensures Http.ReadBody in calls ==> AdminCrud.Configured(env) && AdminCrud.Auth(req, env, v).Granted?
    ensures Http.Queries(calls) ==> AdminCrud.Dispatched(req, env, v)
    ensures 200 <= reply.status < 300 && reply.status != 204 ==> AdminCrud.Dispatched(req, env, v) && Http.Queries(calls)
    ensures AdminCrud.Dispatched(req, env, v) ==>
      var body, before := AdminCrud.ReadBody(req, v.codec.json).value, AdminCrud.AuthCalls(req, env, v) + [Http.ReadBody];
      && (!Known(req.verb) ==> reply.status == 405 && calls == before)
      && (req.verb != "GET" && Known(req.verb) && !body.Null? && MissingInput(req.verb, body) ==>
            reply.status == 400 && calls == before)
      && (req.verb == "PUT" && !body.Null? && Truthy(Get(body, "id")) ==>
            calls == before + [Http.Query(Http.Update(Table, Http.Supplied(body, PutFields), "id", Get(body, "id").value))])
      && (req.verb == "POST" && !body.Null? && Truthy(Get(body, "nome")) && Truthy(Get(body, "slug")) ==>
            calls == before + [Http.Query(Http.Insert(Table, NewRow(body)))])
  {
    var early, body, pre := AdminCrud.Preamble(req, env, v);
    calls := pre;
    if early.Some? {
      reply := early.value;
      return;
    }
    var ops: seq<Http.DbOp>;
    reply, ops := Dispatch(req.verb, body, db, Cors.AdminHeaders(req.origin), nowMs);
    assert pre == AdminCrud.AuthCalls(req, env, v) + [Http.ReadBody];
    assert body == AdminCrud.ReadBody(req, v.codec.json).value;
    var queries := AdminCrud.AsCalls(ops);
    if ops == [] {
      assert queries == [];
    } else if |ops| == 1 {
      assert queries == [Http.Query(ops[0])];
    }
    calls := calls + queries;
    if ops != [] {
      assert calls[|pre|] == Http.Query(ops[0]);
    }
  }
}
