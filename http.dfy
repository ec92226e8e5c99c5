/**
 * What the handlers share: the request as they read it, the reply they send
 * through json(res, status, body), the database operations they ask the
 * Supabase client for, and the trace of calls to the outside a handler makes.
 */
module Http {
  import opened Js
  import Cors
  import BearerAuth

  /**
   * A request: its method (verb), the Origin and Authorization headers, the body text the
   * stream delivered, and the query-string parameters.
   */
  datatype Request = Request(
    verb: string,
    origin: Option<string>,
    authorization: Option<string>,
    rawBody: string,
    query: map<string, string>)

  datatype Body =
    | NoContent                           // 204 and res.end()
    | Error(message: string)              // { error: message }
    | Denial(reason: BearerAuth.Reason)   // the 401 / 403 bodies of requireAuth
    | ServerError                         // 500 from a handler's catch, with the thrown message
    | Data(data: Option<JsValue>)         // { data }
    | Done                                // { ok: true }
    | Synced(authEmailUpdated: bool)      // { ok: true, authEmailUpdated }
    | Uncaught                            // an exception escapes the handler

  datatype Reply = Reply(status: int, headers: Cors.Headers, body: Body)

  const ContentType := "Content-Type"
  const JsonType := "application/json; charset=utf-8"

  /** json(res, status, body) on a response whose CORS headers are already set. */
  function Json(headers: Cors.Headers, status: int, body: Body): Reply {
    Reply(status, headers[ContentType := JsonType], body)
  }

  /** How a handler answers one database call's `{ data, error }`: 400 with the error, or `status` with the data. */
  function Answer(headers: Cors.Headers, r: DbResult, status: int): Reply {
    if r.error.Some? then Json(headers, 400, Error(r.error.value)) else Json(headers, status, Data(r.data))
  }

  /**
   * The Supabase query builder chains the handlers use, reduced to what they
   * select on. List is `select("*")` with `.eq` filters (the ordering is the
   * database's business); SelectOne, Insert and Update end in `.single()`.
   */
  datatype DbOp =
    | List(table: string, filters: seq<(string, string)>)
    | SelectOne(table: string, key: string, value: JsValue)
    | Insert(table: string, row: map<string, JsValue>)
    | Update(table: string, patch: map<string, JsValue>, key: string, value: JsValue)
    | Delete(table: string, key: string, value: JsValue)

  /** `{ data, error }`; `error` is the message of the error object when there is one. */
  datatype DbResult = DbResult(data: Option<JsValue>, error: Option<string>)

  /** The database as the handlers see it: an answer for each operation. */
  type Db = DbOp -> DbResult

  /** A call to the outside world, in the order a handler makes them. */
  datatype Call =
    | FetchKeySet                         // getJwks
    | LookupUser                          // sbUser.auth.getUser()
    | Authorize                           // requireAlfa(req)
    | ReadBody                            // readBody(req)
    | Query(op: DbOp)
    | ListUsers                           // sbAdmin.auth.admin.listUsers
    | UpdateUser(id: JsValue, email: string) // sbAdmin.auth.admin.updateUserById

  predicate Queries(calls: seq<Call>) {
    exists i :: 0 <= i < |calls| && calls[i].Query?
  }

  /** A property of a possibly undefined value: undefined and null have none (reading one throws). */
  predicate Readable(v: Option<JsValue>) {
    v.Some? && !v.value.Null?
  }

  /** `${v}` in a template literal. */
  function Template(v: Option<JsValue>): string {
    if v.None? then "undefined" else ToJsString(v.value)
  }

  /** How a handler turns a body value into the value it writes. */
  datatype Coercion =
    | AsIs            // v
    | NullIfFalsy     // v || null
    | Boolean         // !!v, Boolean(v)
    | NumberOrZero    // Number(v) || 0
    | TrimmedText     // String(v).trim()
    | TextOrEmpty     // String(v || "").trim()

  function Coerce(c: Coercion, v: JsValue): JsValue {
    match c
    case AsIs => v
    case NullIfFalsy => if Truthy(Some(v)) then v else Null
    case Boolean => Bool(Truthy(Some(v)))
    case NumberOrZero => Num(Js.NumberOrZero(Some(v)))
    case TrimmedText => Str(Trim(ToJsString(v)))
    case TextOrEmpty => Str(if Truthy(Some(v)) then Trim(ToJsString(v)) else "")
  }

  /** A field a patch builder copies from the body, and how. */
  datatype Field = Field(name: string, coercion: Coercion)

  predicate DistinctNames(fields: seq<Field>) {
    forall i, j :: 0 <= i < j < |fields| ==> fields[i].name != fields[j].name
  }

  /**
   * The patch a handler builds by `if (body.k !== undefined) patch.k = coerce(body.k)`
   * for each field in turn.
   */
  function Supplied(body: JsValue, fields: seq<Field>): map<string, JsValue>
    decreases |fields|
  {
    if fields == [] then map[]
    else
      var f := fields[|fields| - 1];
      var before := Supplied(body, fields[..|fields| - 1]);
      if Get(body, f.name).Some? then before[f.name := Coerce(f.coercion, Get(body, f.name).value)] else before
  }

  /**
   * One more field of the list: what a builder's next `if (body.k !== undefined)`
   * does to the patch `before` built from the fields ahead of it.
   */
  lemma SuppliedStep(body: JsValue, fields: seq<Field>, i: nat, before: map<string, JsValue>)
    requires i < |fields| && before == Supplied(body, fields[..i])
    ensures var f := fields[i];
      Supplied(body, fields[..i + 1])
        == (if Get(body, f.name).Some? then before[f.name := Coerce(f.coercion, Get(body, f.name).value)] else before)
  {
    assert fields[..i + 1][..i] == fields[..i];
  }

  /**
   * The patch holds exactly the fields the body defines, each with its
   * coerced value, and no other key.
   */
  lemma {:induction false} SuppliedMeaning(body: JsValue, fields: seq<Field>)
    requires DistinctNames(fields)
    ensures var p := Supplied(body, fields);
      && (forall k :: k in p ==> Get(body, k).Some? && exists i :: 0 <= i < |fields| && fields[i].name == k)
      && (forall i :: 0 <= i < |fields| ==> (fields[i].name in p <==> Get(body, fields[i].name).Some?))
      && (forall i :: 0 <= i < |fields| && fields[i].name in p ==>
            p[fields[i].name] == Coerce(fields[i].coercion, Get(body, fields[i].name).value))
    decreases |fields|
  {
    if fields != [] {
      var n := |fields| - 1;
      var init := fields[..n];
      SuppliedMeaning(body, init);
      var p := Supplied(body, fields);
      forall k | k in p ensures Get(body, k).Some? && exists i :: 0 <= i < |fields| && fields[i].name == k {
        if k != fields[n].name {
          var i :| 0 <= i < |init| && init[i].name == k;
          assert fields[i].name == k;
        }
      }
      forall i | 0 <= i < |fields| ensures fields[i].name in p <==> Get(body, fields[i].name).Some? {
        if i < n { assert fields[i] == init[i]; }
      }
      forall i | 0 <= i < |fields| && fields[i].name in p
        ensures p[fields[i].name] == Coerce(fields[i].coercion, Get(body, fields[i].name).value)
      {
        if i < n {
          assert fields[i] == init[i];
          assert fields[i].name != fields[n].name;
        }
      }
    }
  }

  /** The text coercions give strings with nothing left to trim. */
  lemma CoercedTextTrimmed(c: Coercion, v: JsValue)
    requires c == TrimmedText || c == TextOrEmpty
    ensures Coerce(c, v).Str? && Trim(Coerce(c, v).s) == Coerce(c, v).s
  {
    TrimIdempotent(ToJsString(v));
  }

  /** An object property that JSON.stringify keeps only when it is defined. */
  function WithDefined(m: map<string, JsValue>, k: string, v: Option<JsValue>): map<string, JsValue> {
    if v.None? then m else m[k := v.value]
  }

  /** The patch ignores every key of the body outside `fields`, `id` included. */
  lemma {:induction false} SuppliedDependsOnFieldsOnly(b1: JsValue, b2: JsValue, fields: seq<Field>)
    requires forall i :: 0 <= i < |fields| ==> Get(b1, fields[i].name) == Get(b2, fields[i].name)
    ensures Supplied(b1, fields) == Supplied(b2, fields)
    decreases |fields|
  {
    if fields != [] {
      var init := fields[..|fields| - 1];
      assert forall i :: 0 <= i < |init| ==> init[i] == fields[i];
      SuppliedDependsOnFieldsOnly(b1, b2, init);
    }
  }
}
