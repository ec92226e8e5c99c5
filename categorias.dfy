/**
 * The handler of categorias.js: after the shared preamble, GET lists the
 * categories (of one client when `?cliente_slug=` is given), POST creates one
 * (cliente_slug and nome required), PUT updates by id with a patch of the
 * supplied fields, PATCH toggles or duplicates, DELETE removes.
 */
module Categorias {
  import opened Js
  import Cors
  import Http
  import AdminCrud

  const Table := "categorias"
  /** The PUT fields: `Number(ordem) || 0`, `!!ativo`, the others as given. */
  const PutFields: seq<Http.Field> := [
    Http.Field("cliente_slug", Http.AsIs), Http.Field("nome", Http.AsIs),
    Http.Field("ordem", Http.NumberOrZero), Http.Field("ativo", Http.Boolean)]

  /** The row POST inserts: `{ cliente_slug, nome, ordem: Number(ordem) || 0, ativo: !!ativo }`, defaults 0 and true. */
  function NewRow(body: JsValue): map<string, JsValue> {
    var ativo := Get(body, "ativo");
    var base := map["ordem" := Num(NumberOrZero(Get(body, "ordem"))),
                    "ativo" := Bool(ativo.None? || Truthy(ativo))];
    Http.WithDefined(Http.WithDefined(base, "cliente_slug", Get(body, "cliente_slug")), "nome", Get(body, "nome"))
  }

  /** The row duplicate inserts: the same client, order and state, the name marked as a copy. */
  function CopyOf(row: JsValue): map<string, JsValue> {
    var base := map["nome" := Str(Http.Template(Get(row, "nome")) + " (cópia)")];
    Http.WithDefined(Http.WithDefined(Http.WithDefined(base, "cliente_slug", Get(row, "cliente_slug")),
      "ordem", Get(row, "ordem")), "ativo", Get(row, "ativo"))
  }

  /** `(req.query?.cliente_slug || "").toString()`, filtering only when non-empty. */
  function ListFilters(query: map<string, string>): seq<(string, string)> {
    if "cliente_slug" in query && query["cliente_slug"] != "" then [("cliente_slug", query["cliente_slug"])] else []
  }

  /** The PUT patch, field by field. */
  method BuildPatch(body: JsValue) returns (patch: map<string, JsValue>)
    ensures patch == Http.Supplied(body, PutFields)
  {
    patch := map[];
    assert PutFields[..0] == [];
    Http.SuppliedStep(body, PutFields, 0, patch);
    var clienteSlug := Get(body, "cliente_slug");
    if clienteSlug.Some? { patch := patch["cliente_slug" := clienteSlug.value]; }
    Http.SuppliedStep(body, PutFields, 1, patch);
    var nome := Get(body, "nome");
    if nome.Some? { patch := patch["nome" := nome.value]; }
    Http.SuppliedStep(body, PutFields, 2, patch);
    var ordem := Get(body, "ordem");
    if ordem.Some? { patch := patch["ordem" := Num(NumberOrZero(ordem))]; }
    Http.SuppliedStep(body, PutFields, 3, patch);
    var ativo := Get(body, "ativo");
    if ativo.Some? { patch := patch["ativo" := Bool(Truthy(ativo))]; }
    assert PutFields[..4] == PutFields;
  }

  /**
   * The PUT patch holds exactly those of cliente_slug, nome, ordem and ativo
   * the body defines, `ordem` as a number and `ativo` as a boolean, and no
   * other key.
   */
  lemma PutPatchMeaning(body: JsValue)
    ensures var p := Http.Supplied(body, PutFields);
      && (forall k :: k in p <==> (k == "cliente_slug" || k == "nome" || k == "ordem" || k == "ativo") && Get(body, k).Some?)
      && ("cliente_slug" in p ==> p["cliente_slug"] == Get(body, "cliente_slug").value)
      && ("nome" in p ==> p["nome"] == Get(body, "nome").value)
      && ("ordem" in p ==> p["ordem"] == Num(NumberOrZero(Get(body, "ordem"))))
      && ("ativo" in p ==> p["ativo"] == Bool(Truthy(Get(body, "ativo"))))
  {
    Http.SuppliedMeaning(body, PutFields);
    var p := Http.Supplied(body, PutFields);
    forall k | k in p ensures k == "cliente_slug" || k == "nome" || k == "ordem" || k == "ativo" {
      var i :| 0 <= i < |PutFields| && PutFields[i].name == k;
    }
    assert PutFields[0].name == "cliente_slug" && PutFields[1].name == "nome";
    assert PutFields[2].name == "ordem" && PutFields[3].name == "ativo";
  }

  /**
   * A created category always has a numeric order and a boolean state: 0 and
   * true when the body leaves them out, 0 as well for an order that is not a number.
   */
  lemma NewRowDefaults(body: JsValue)
    ensures var row := NewRow(body);
      && row["ordem"].Num? && row["ativo"].Bool?
      && (Get(body, "ordem").None? ==> row["ordem"] == Num(0))
      && (Get(body, "ativo").None? ==> row["ativo"] == Bool(true))
      && (Get(body, "ordem").Some? && ToNumber(Get(body, "ordem").value).None? ==> row["ordem"] == Num(0))
      && (Truthy(Get(body, "cliente_slug")) && Truthy(Get(body, "nome")) ==>
            row["cliente_slug"] == Get(body, "cliente_slug").value && row["nome"] == Get(body, "nome").value)
  {
  }

  method List(query: map<string, string>, db: Http.Db, h: Cors.Headers) returns (reply: Http.Reply, ops: seq<Http.DbOp>)
    ensures ops == [Http.List(Table, ListFilters(query))]
    ensures reply == Http.Answer(h, db(ops[0]), 200)
    ensures reply.headers == h[Http.ContentType := Http.JsonType]
  {
    var op := Http.List(Table, ListFilters(query));
    ops := [op];
    reply := Http.Answer(h, db(op), 200);
  }

  method Create(body: JsValue, db: Http.Db, h: Cors.Headers) returns (reply: Http.Reply, ops: seq<Http.DbOp>)
    requires !body.Null?
    ensures !Truthy(Get(body, "cliente_slug")) || !Truthy(Get(body, "nome")) ==>
      reply == Http.Json(h, 400, Http.Error("cliente_slug e nome são obrigatórios")) && ops == []
    ensures Truthy(Get(body, "cliente_slug")) && Truthy(Get(body, "nome")) ==>
      ops == [Http.Insert(Table, NewRow(body))]
      && reply == Http.Answer(h, db(ops[0]), 201)
    ensures reply.headers == h[Http.ContentType := Http.JsonType]
  {
    if !Truthy(Get(body, "cliente_slug")) || !Truthy(Get(body, "nome")) {
      reply := Http.Json(h, 400, Http.Error("cliente_slug e nome são obrigatórios"));
      ops := [];
      return;
    }
    var op := Http.Insert(Table, NewRow(body));
    ops := [op];
    reply := Http.Answer(h, db(op), 201);
  }

  method Edit(body: JsValue, db: Http.Db, h: Cors.Headers) returns (reply: Http.Reply, ops: seq<Http.DbOp>)
    requires !body.Null?
    ensures !Truthy(Get(body, "id")) ==> reply == Http.Json(h, 400, Http.Error("id é obrigatório")) && ops == []
    ensures Truthy(Get(body, "id")) ==>
      ops == [Http.Update(Table, Http.Supplied(body, PutFields), "id", Get(body, "id").value)]
      && reply == Http.Answer(h, db(ops[0]), 200)
    ensures reply.headers == h[Http.ContentType := Http.JsonType]
  {
    var id := Get(body, "id");
    if !Truthy(id) {
      reply := Http.Json(h, 400, Http.Error("id é obrigatório"));
      ops := [];
      return;
    }
    var patch := BuildPatch(body);
    var op := Http.Update(Table, patch, "id", id.value);
    ops := [op];
    reply := Http.Answer(h, db(op), 200);
  }

  predicate Known(verb: string) {
    verb == "GET" || verb == "POST" || verb == "PUT" || verb == "PATCH" || verb == "DELETE"
  }

  /** A 400 the handler gives before any database call, for want of a required field or a valid action. */
  predicate MissingInput(verb: string, body: JsValue) {
    (verb == "POST" && (!Truthy(Get(body, "cliente_slug")) || !Truthy(Get(body, "nome"))))
    || ((verb == "PUT" || verb == "DELETE") && !Truthy(Get(body, "id")))
    || (verb == "PATCH" && (!Truthy(Get(body, "action")) || !Truthy(Get(body, "id"))
          || (Get(body, "action") != Some(Str("toggle")) && Get(body, "action") != Some(Str("duplicate")))))
  }

  /** The method dispatch inside the handler's try, on a parsed body. */
  method Dispatch(verb: string, query: map<string, string>, body: JsValue, db: Http.Db, h: Cors.Headers)
    returns (reply: Http.Reply, ops: seq<Http.DbOp>)
    ensures !Known(verb) ==> reply == Http.Json(h, 405, Http.Error("Method not allowed")) && ops == []
    ensures verb != "GET" && Known(verb) && body.Null? ==> reply == Http.Json(h, 500, Http.ServerError) && ops == []
    ensures verb == "GET" ==> ops == [Http.List(Table, ListFilters(query))]
    ensures verb == "PUT" && !body.Null? && Truthy(Get(body, "id")) ==>
      ops == [Http.Update(Table, Http.Supplied(body, PutFields), "id", Get(body, "id").value)]
    ensures verb == "POST" && !body.Null? && Truthy(Get(body, "cliente_slug")) && Truthy(Get(body, "nome")) ==>
      ops == [Http.Insert(Table, NewRow(body))]
    ensures verb == "PATCH" && !body.Null? && AdminCrud.ActionGiven(body) && Get(body, "action") == Some(Str("toggle")) ==>
      AdminCrud.ReadThenWrite(Table, Get(body, "id").value, db, h, AdminCrud.ToggleWrite(Table, Get(body, "id").value), 200, reply, ops)
    ensures verb == "PATCH" && !body.Null? && AdminCrud.ActionGiven(body) && Get(body, "action") == Some(Str("duplicate")) ==>
      AdminCrud.ReadThenWrite(Table, Get(body, "id").value, db, h, AdminCrud.DuplicateWrite(Table, CopyOf), 201, reply, ops)
    ensures verb != "GET" && Known(verb) && !body.Null? ==> (ops == [] <==> MissingInput(verb, body))
    ensures verb != "GET" && Known(verb) && !body.Null? && MissingInput(verb, body) ==> reply.status == 400
    ensures reply.headers == h[Http.ContentType := Http.JsonType]
    ensures 200 <= reply.status < 300 ==> ops != []
  {
    if verb == "GET" {
      reply, ops := List(query, db, h);
    } else if !Known(verb) {
      reply := Http.Json(h, 405, Http.Error("Method not allowed"));
      ops := [];
    } else if body.Null? {
      // destructuring null throws inside the try
      reply := Http.Json(h, 500, Http.ServerError);
      ops := [];
    } else if verb == "POST" {
      reply, ops := Create(body, db, h);
    } else if verb == "PUT" {
      reply, ops := Edit(body, db, h);
    } else if verb == "PATCH" {
      reply, ops := AdminCrud.Act(Table, body, db, h, CopyOf);
    } else {
      reply, ops := AdminCrud.Remove(Table, body, db, h);
    }
  }

  /**
   * The whole handler. The body is only read, and the database only reached, for a request that
   * requireAuth let through; a 2xx answer other than the preflight's needs a
   * parsed body and a database call.
   */
  method Handle(req: Http.Request, env: AdminCrud.Env, v: AdminCrud.Verifier, db: Http.Db)
    returns (reply: Http.Reply, calls: seq<Http.Call>)
    ensures AdminCrud.HasAdminHeaders(reply, req.origin)
    ensures req.verb == "OPTIONS" ==> reply.status == 204 && calls == []
    ensures Http.ReadBody in calls ==> AdminCrud.Configured(env) && AdminCrud.Auth(req, env, v).Granted?
    ensures Http.Queries(calls) ==> AdminCrud.Dispatched(req, env, v)
    ensures 200 <= reply.status < 300 && reply.status != 204 ==> AdminCrud.Dispatched(req, env, v) && Http.Queries(calls)
    ensures AdminCrud.Dispatched(req, env, v) ==>
      var body, before := AdminCrud.ReadBody(req, v.codec.json).value, AdminCrud.AuthCalls(req, env, v) + [Http.ReadBody];
      && (!Known(req.verb) ==> reply.status == 405 && calls == before)
      && (req.verb != "GET" && Known(req.verb) && !body.Null? && MissingInput(req.verb, body) ==>
            reply.status == 400 && calls == before)
      && (req.verb == "PUT" && !body.Null? && Truthy(Get(body, "id")) ==>
            calls == before + [Http.Query(Http.Update(Table, Http.Supplied(body, PutFields), "id", Get(body, "id").value))])
      && (req.verb == "POST" && !body.Null? && Truthy(Get(body, "cliente_slug")) && Truthy(Get(body, "nome")) ==>
            calls == before + [Http.Query(Http.Insert(Table, NewRow(body)))])
  {
    var early, body, pre := AdminCrud.Preamble(req, env, v);
    calls := pre;
    if early.Some? {
      reply := early.value;
      return;
    }
    var ops: seq<Http.DbOp>;
    reply, ops := Dispatch(req.verb, req.query, body, db, Cors.AdminHeaders(req.origin));
    assert pre == AdminCrud.AuthCalls(req, env, v) + [Http.ReadBody];
    assert body == AdminCrud.ReadBody(req, v.codec.json).value;
    var queries := AdminCrud.AsCalls(ops);
    if ops == [] {
      assert queries == [];
    } else if |ops| == 1 {
      assert queries == [Http.Query(ops[0])];
    }
    calls := calls + queries;
    if ops != [] {
      assert calls[|pre|] == Http.Query(ops[0]);
    }
  }
}
