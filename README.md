# Cafeteria admin API, modelled in Dafny

This project models the server side of the cafeteria's administration panel.
It covers the Vercel handlers under `api/admin/` that manage clients, categories and products, plus the shared admin check of `api/_lib/auth.js`.

The model covers:

- **Local authentication (clientes.js, categorias.js).**
  - The `Authorization` header is matched against `/^Bearer\s+(.+)$/i`.
  - The access token is a compact JWS. Its segments are rewritten from base64url to padded base64, then decoded.
  - The checks run in a fixed order: alg RS256, a `kid`, expiry, issuer, a key with that `kid` in the fetched key set, then the RSA-SHA256 signature.
  - The claimed email is then checked against the `ADMIN_EMAILS` allowlist (`requireAuth`).
- **Remote authentication (auth.js).** `requireAdmin` asks the authentication service who the token belongs to, then checks that user's email against the same allowlist.
- **CORS.**
  - In clientes.js and categorias.js, an origin is allowed by prefix.
  - In produtos.js, an origin must match exactly; `.vercel.app` previews are allowed in every file.
- **The handlers, as methods.** Each one:
  - answers the preflight;
  - checks configuration, authorises, reads the body and dispatches on the HTTP method;
  - requires its fields;
  - builds its insert rows and update patches.

  A handler returns its reply and the trace of outside calls it made: key-set fetch, user lookup, body read, database operations, Auth-user listing and update. The contracts can therefore say that nothing is read before authorisation, and nothing reaches the database before dispatch.
- **editar-cliente.js.**
  - the allowed-key loop;
  - the normalisation of email, instagram and whatsapp;
  - the "best-effort" move of the Auth user to a changed email address.

Collaborators the code only calls are parameters of the model:

- the base64 and UTF-8 decoders and JSON.parse (`Jwt.Codec`);
- `crypto.verify` (`Jwt.RsaVerify`);
- the fetched JWKS;
- the clock (seconds; milliseconds for the duplicate slug);
- `process.env`;
- `getUser`, `listUsers` and `updateUserById` results;
- `requireAlfa`'s decision;
- the database (`Http.Db`, an answer for every query).

JSON values are `Js.JsValue`, and `None` stands for `undefined`.

Points where the code's behaviour is easy to misread:

- A token with more than three dot-separated segments is accepted. Only the first three are used (`Jwt.AssembledToken`).
- `exp` is optional: a token without it never expires (`Jwt.ExpiryRule`).
- The JWKS is fetched on every verification; there is no key cache.
- An empty `ADMIN_EMAILS` lets every verified token through in clientes.js and categorias.js (`BearerAuth.FailOpen`). It refuses everybody in auth.js (`RemoteAdmin.FailClosed`).

## Model

| member | source | states |
|---|---|---|
| AdminEmails.Membership | api/admin/clientes.js:16-19 | an address is on the allowlist iff it is non-empty and is the trimmed, lower-cased form of one comma-separated piece of ADMIN_EMAILS |
| AdminEmails.EntriesAreNormal | api/admin/clientes.js:16-19 | every allowlist entry is non-empty, has no surrounding whitespace, and is lower-case |
| AdminEmails.EmptyIffBlank | api/admin/clientes.js:16-19 | the allowlist is empty iff ADMIN_EMAILS is unset or holds only whitespace and commas |
| AdminEmails.KeepNonEmptyMembers | api/_lib/auth.js:10-13 | `.filter(Boolean)` keeps exactly the non-empty strings |
| AdminEmails.NormalizeEntryIsNormal | api/_lib/auth.js:12 | `trim().toLowerCase()` is a normal form: trimming or lower-casing it again changes nothing |
| Base64Url.NormalizeShape | api/admin/clientes.js:74-78 | after b64urlToBuf's rewriting: no `-` or `_` is left; the length is a multiple of 4; at most three `=` are appended, and none if the length already was a multiple of 4; every character keeps its place, translated |
| Base64Url.RoundTrip | api/admin/categorias.js:63-67 | on base64url text, removing the padding and translating back gives the segment again |
| Jwt.MalformedIff | api/admin/clientes.js:80-82 | "Malformed JWT" is thrown iff one of the first three segments is missing or empty, and it is decided before any decoding |
| Jwt.SigningInputIsOriginal | api/admin/clientes.js:83-87 | the signing input is the original `h.p` text, a prefix of the token followed by a dot; header, payload and signature are the decodings of segments 0, 1 and 2 |
| Jwt.AssembledToken | api/admin/clientes.js:81 | three non-empty dot-free segments parse as those segments whatever follows a further dot: extra segments are ignored |
| Jwt.ClaimCheckPasses | api/admin/clientes.js:105-114 | the checks made before the key set is fetched all pass iff the header and claims are accepted (alg, kid, exp, issuer) |
| Jwt.RejectedBeforeKeySet | api/admin/categorias.js:90-100 | when parsing or a claim check fails, the result is an error, and neither the key set nor the signature verifier changes it |
| Jwt.AlgAndKidFirst | api/admin/clientes.js:105-106 | an alg other than exactly "RS256", or a falsy kid, is refused with that reason |
| Jwt.ExpiryRule | api/admin/clientes.js:109-110 | once the header is accepted, "Token expired" iff `exp` is truthy and now >= exp; a token without `exp` never expires |
| Jwt.KeyCheckErrors | api/admin/clientes.js:117-130 | the key step fails only with the key-set, lookup, unknown-kid or signature errors; on success it returns the payload unchanged |
| Jwt.FindKeyErrors | api/admin/clientes.js:118 | the key search can only fail by meeting a null entry |
| Jwt.FindKeyFirst | api/admin/categorias.js:103 | the key found is the first entry whose kid strictly equals the header's, and every entry before it is a non-null non-match; no key iff no entry matches and none is null |
| Jwt.VerifiedMeans | api/admin/clientes.js:102-133 | a verified token passed every check: well-formed, RS256 with a kid, unexpired, from `${SUPABASE_URL}/auth/v1`, and signed over the original text by the first key whose kid matches, every earlier entry being a non-null non-match; the payload comes back unchanged, and it is an object |
| Jwt.AcceptedWhenAllPass | api/admin/categorias.js:90-117 | conversely, when every check passes and the first matching key verifies the signature, the payload is returned |
| Jwt.FirstFailureDecides | api/admin/clientes.js:102-130 | each claim-stage error iff every earlier check passed and its own failed; the null-property error iff a null header, a null payload after the header passed, or, after every claim passed, a null key set or a null entry met before any match; every key-stage error iff all claims passed and the key step gives it |
| Jwt.KeyStageDecides | api/admin/clientes.js:117-130 | after parsing and every claim passed: no key set iff "unavailable"; a key set or `keys` without a find method iff the bad-key-set error; "Unknown kid" iff every entry is a non-null non-match; key refused or "Bad signature" iff the verifier refuses the first match or it does not verify |
| Jwt.KeyLookupOutcomes | api/admin/clientes.js:117-119 | the key step's outcomes before the signature check, each as an iff: no key set, a key set that cannot be searched, a null key set or null entry before a match, no match |
| Jwt.SignatureOutcomes | api/admin/clientes.js:120-130 | on the first match the verifier's refusal gives the key-rejected error and a false verdict "Bad signature", each as an iff |
| Jwt.KeysOfErrors | api/admin/clientes.js:118 | the key search throws on a null key set, and has no find method iff the key set is an array or its `keys` is truthy and not an array |
| Jwt.FindKeyNull | api/admin/clientes.js:118 | the search throws iff it meets a null entry before any entry matches |
| Jwt.FindKeyAt | api/admin/clientes.js:118 | the first non-null match, every earlier entry a non-null non-match, is the key found |
| BearerAuth.BearerSound | api/admin/clientes.js:135-139 | a token found is a non-empty, line-terminator-free suffix of the header, after "bearer" in some case and at least one whitespace character |
| BearerAuth.AfterSchemeSound | api/admin/clientes.js:135-139 | what the regular expression captures after the scheme name is a non-empty, line-terminator-free suffix preceded by whitespace only |
| BearerAuth.BearerComplete | api/admin/categorias.js:119-123 | conversely, "Bearer" in any case, whitespace, then a token that does not start with whitespace and has no line terminator, gives that token |
| BearerAuth.BearerOfBlank | api/admin/clientes.js:137 | the scheme followed only by two or more whitespace characters yields the last whitespace character as a token |
| BearerAuth.ClaimedEmailPrecedence | api/admin/clientes.js:152-155 | the third email alternative never changes the result; a truthy `email` claim wins |
| BearerAuth.GrantedMeans | api/admin/clientes.js:141-165 | access is granted only for a found and verified token, with its payload; with a non-empty allowlist the claimed email, lower-cased, is on it |
| BearerAuth.Outcomes | api/admin/categorias.js:125-151 | the outcome for every input: 401 "Missing Bearer token" iff no token; 401 with the verification error iff verification fails; 403 iff the allowlist is non-empty and a string email is not on it |
| BearerAuth.FailOpen | api/admin/clientes.js:157-165 | with ADMIN_EMAILS unset or blank, every verified token is granted, whatever its email |
| BearerAuth.AllowlistDecides | api/admin/categorias.js:139-146 | with a non-empty allowlist, a verified token with a string email is granted iff that email, lower-cased, is the normal form of one piece of ADMIN_EMAILS |
| BearerAuth.NoFetchNoDependence | api/admin/clientes.js:142-149 | a request refused before the key-set fetch gets a 401 that depends on neither the key set nor the verifier |
| RemoteAdmin.PrefixTokenIff | api/_lib/auth.js:17-21 | the token is exactly the non-empty text after "Bearer " (that case, one space) |
| RemoteAdmin.ConfigFirst | api/_lib/auth.js:15 | a missing SUPABASE_URL or SUPABASE_ANON_KEY throws, whatever the header and the lookup |
| RemoteAdmin.NoTokenNoLookup | api/_lib/auth.js:17-21 | without a token the lookup plays no part; once configured, the answer is 401 "Missing Bearer token" |
| RemoteAdmin.AdminMeans | api/_lib/auth.js:29-39 | ok means all of: configured; a token found; a lookup with no error naming a user; that user's email, lower-cased, on a non-empty allowlist. That same user is returned |
| RemoteAdmin.AdminWhen | api/_lib/auth.js:7-39 | conversely, under all those conditions the user the lookup named is returned |
| RemoteAdmin.Outcomes | api/_lib/auth.js:15-39 | each result iff its condition, in the order of the checks: throw when SUPABASE_URL or SUPABASE_ANON_KEY is missing; 401 "Missing Bearer token" without a token; 401 "Invalid token" for a lookup error or no user; a throw for a truthy non-string email; 403 "Not an admin" for a string email off the allowlist; otherwise the looked-up user |
| RemoteAdmin.FalsyEmailRefused | api/_lib/auth.js:34-36 | a looked-up user with a falsy email is compared as "" and refused with 403 "Not an admin" |
| RemoteAdmin.FailClosed | api/_lib/auth.js:10-13 | with ADMIN_EMAILS unset or blank nobody is an admin, and a looked-up user is refused with 403 |
| RemoteAdmin.EmptyAllowlistContrast | api/_lib/auth.js:35-37 | with ADMIN_EMAILS unset, a token that clientes.js lets through is refused by requireAdmin |
| RemoteAdmin.HeaderContrastCase | api/_lib/auth.js:18 | "bearer abc" gives the token "abc" to the regular expression of clientes.js and no token here |
| RemoteAdmin.HeaderContrastSpaces | api/_lib/auth.js:18 | "Bearer  abc" gives "abc" to the regular expression and " abc" here |
| Cors.AdminHeadersFacts | api/admin/clientes.js:31-47 | the origin is echoed, unchanged, iff allowed; Vary, credentials, allowed headers and the six methods are always set |
| Cors.ProductHeadersFacts | api/admin/produtos.js:11-24 | the origin is echoed iff it is one of the three listed origins exactly, or a `.vercel.app` preview; there is no credentials header, and no PUT |
| Cors.AdminAllowedSimplified | api/admin/categorias.js:22-27 | the prefix rule comes down to: starts with the GitHub Pages origin, or ends with `.vercel.app` |
| Cors.ProductImpliesAdminExceptLocalhost | api/admin/produtos.js:5-14 | of the origins produtos.js allows, the admin handlers allow all but the two localhost ones |
| Cors.PrefixRuleAdmitsLookalike | api/admin/clientes.js:35 | an origin under someone else's domain that begins with the Pages origin passes the prefix rule and fails the exact rule |
| Http.SuppliedMeaning | api/admin/clientes.js:229-233 | a patch built by `if (body.k !== undefined) patch.k = coerce(body.k)` has exactly the listed keys the body defines, each with its coerced value |
| Http.CoercedTextTrimmed | api/admin/produtos.js:140-145 | the two text coercions (String of the value, trimmed; String of the value or "", trimmed) give strings with nothing left to trim |
| Http.SuppliedDependsOnFieldsOnly | api/admin/categorias.js:210-214 | the patch ignores every key of the body outside its field list, `id` included |
| AdminCrud.Preamble | api/admin/clientes.js:176-195 | preflight 204 with no calls; missing env 500; requireAuth's 401/403 after only its own calls; 400 on a body JSON.parse refuses; dispatch iff none of these, with the body read only after authorisation and no database call |
| AdminCrud.ToggleTwice | api/admin/clientes.js:261 | toggle writes a boolean of the opposite truthiness; toggling twice restores the truthiness, and restores a stored boolean exactly |
| AdminCrud.Toggle | api/admin/clientes.js:251-268 | one read by id; a read error gives 400 with no write; a null row gives 500; otherwise the write of `!row.ativo` by id, answered 200 or 400 |
| AdminCrud.Duplicate | api/admin/clientes.js:270-296 | one read by id; a read error gives 400 and a null row 500, with no insert; otherwise the insert of the copy, answered 201 or 400 |
| AdminCrud.Act | api/admin/categorias.js:227-276 | 400 "action e id são obrigatórios" or "action inválida" with no database call; for "toggle" the read by id, its 400 or 500, or the write of the negated `ativo` answered 200 or 400; for "duplicate" the read, its 400 or 500, or the insert of the copy answered 201 or 400 |
| AdminCrud.Remove | api/admin/clientes.js:301-312 | 400 "id é obrigatório" with no call when id is falsy; otherwise delete by that id, and 200 `{ ok: true }` or 400 |
| Clientes.BuildPatch | api/admin/clientes.js:229-233 | the in-place PUT patch equals the supplied-fields patch of nome, slug, whatsapp or null, `!!ativo` |
| Clientes.PutPatchMeaning | api/admin/clientes.js:226-233 | the PUT patch holds exactly the four fields the body defines, `ativo` a boolean, `whatsapp` null when falsy; never `id` |
| Clientes.List | api/admin/clientes.js:198-207 | one unfiltered list; 400 with the error, or 200 with the data |
| Clientes.Create | api/admin/clientes.js:209-222 | 400 "nome e slug são obrigatórios" with no call unless both are truthy; otherwise one insert of the row (`ativo` defaulting to true), 201 or 400 |
| Clientes.Edit | api/admin/clientes.js:224-244 | 400 "id é obrigatório" with no call; otherwise one update of the patch by id |
| Clientes.Dispatch | api/admin/clientes.js:197-317 | 405 with no call for any other method; 500 on a null body; no database call iff a required input is missing, and then 400; a 2xx needs a call; a PATCH toggle or duplicate reads the row by id and writes its negated `ativo` or inserts its copy, with the answers of AdminCrud.Toggle and AdminCrud.Duplicate |
| Clientes.Handle | api/admin/clientes.js:175-318 | CORS headers always; preflight 204 with no call; the body read only after requireAuth granted; the database reached only from dispatch; the exact calls of PUT and POST |
| Categorias.BuildPatch | api/admin/categorias.js:210-214 | the in-place PUT patch equals the supplied-fields patch of cliente_slug, nome, Number(ordem) or 0, `!!ativo` |
| Categorias.PutPatchMeaning | api/admin/categorias.js:206-214 | the PUT patch holds exactly those four fields the body defines, `ordem` a number, `ativo` a boolean; no other key |
| Categorias.NewRowDefaults | api/admin/categorias.js:191-198 | a created category has a numeric order and a boolean state: 0 and true when left out, 0 for an order that is not a number |
| Categorias.List | api/admin/categorias.js:179-188 | one list, filtered by cliente_slug only when non-empty; 400 or 200 |
| Categorias.Create | api/admin/categorias.js:190-204 | 400 "cliente_slug e nome são obrigatórios" with no call unless both are truthy; otherwise one insert, 201 or 400 |
| Categorias.Edit | api/admin/categorias.js:206-225 | 400 "id é obrigatório" with no call; otherwise one update of the patch by id |
| Categorias.Dispatch | api/admin/categorias.js:178-290 | 405 with no call for any other method; no database call iff a required input is missing, and then 400; a PATCH toggle or duplicate reads the row by id and writes its negated `ativo` or inserts its copy, with the answers of AdminCrud.Toggle and AdminCrud.Duplicate |
| Categorias.Handle | api/admin/categorias.js:156-291 | CORS headers; preflight; body read only after authorisation; database only from dispatch; exact PUT and POST calls |
| Produtos.PatchKeys | api/admin/produtos.js:139-146 | the PATCH patch has exactly the seven fields the body defines, and no other key |
| Produtos.PatchValues | api/admin/produtos.js:140-146 | in the PATCH patch: texts are trimmed strings; a falsy descricao or imagem_url is ""; categoria_id is as given; preco is a number; ativo is a boolean |
| Produtos.NewRowNames | api/admin/produtos.js:88-112 | the created row's cliente_slug and nome are strings with nothing left to trim |
| Produtos.NewRowOptionalTexts | api/admin/produtos.js:88-112 | the created row's descricao and imagem_url are trimmed strings, "" when the body's value is falsy |
| Produtos.NewRowDefaults | api/admin/produtos.js:88-112 | in the created row preco is the number of the body's value, 0 when it is missing or not a number; ativo is a boolean, false only for a given falsy value; a given categoria_id is kept as it is |
| Produtos.SentinelMeaning | api/admin/produtos.js:32-46 | the body carries a truthy `__invalidJson` iff it is not a GET, DELETE or empty body, and JSON.parse refused it or the body itself carries that key |
| Produtos.BuildPatch | api/admin/produtos.js:139-146 | the in-place PATCH patch equals the supplied-fields patch of the seven fields |
| Produtos.List | api/admin/produtos.js:71-84 | one list filtered by the trimmed cliente_slug and categoria_id when non-empty |
| Produtos.Create | api/admin/produtos.js:87-122 | 400 "Campos obrigatórios: cliente_slug, categoria_id, nome" with no call unless all three are truthy; otherwise one insert |
| Produtos.Edit | api/admin/produtos.js:125-157 | 400 "id é obrigatório para atualizar" with no call; otherwise one update by id |
| Produtos.Remove | api/admin/produtos.js:160-168 | the id comes from the query string; 400 "Passe ?id= no querystring" with no call without it |
| Produtos.Preamble | api/admin/produtos.js:54-67 | preflight; requireAdmin's status and error; its throw, a missing service key and a null body escape as 500; the body is read only for an admin; the sentinel gives 400 |
| Produtos.Dispatch | api/admin/produtos.js:69-173 | 405 with no call for any other method; each method's exact operation, or none and a 400 |
| Produtos.Handle | api/admin/produtos.js:53-174 | exact-origin CORS headers; preflight; body read only for an admin; database only from dispatch; the exact DELETE, PATCH and POST calls |
| EditarCliente.AsText | api/admin/editar-cliente.js:13 | `v || ""` read as text: "" for a falsy v, v's own text for a truthy string, and None (the later `.trim()` throws) exactly for a truthy non-string |
| EditarCliente.StripLeadingAtFacts | api/admin/editar-cliente.js:47 | after removing `^@+` the text does not start with '@', and it is what follows a run of '@'s |
| EditarCliente.NormalizeFieldMeaning | api/admin/editar-cliente.js:45-48 | non-strings and other keys are untouched; the email becomes trimmed and lower-case; the instagram value is trimmed with all leading '@'s removed; the whatsapp value is trimmed |
| EditarCliente.NewEmailOfPatch | api/admin/editar-cliente.js:46-60 | the new address compared is the normalised email of the body, and "" when there is none |
| EditarCliente.CopyAllowed | api/admin/editar-cliente.js:26-43 | the loop copies exactly the allowed keys the body has as own properties, values unchanged; no other key enters the patch |
| EditarCliente.NormalizePatch | api/admin/editar-cliente.js:45-48 | the in-place normalisations keep the keys and normalise every value |
| EditarCliente.BuildPatch | api/admin/editar-cliente.js:26-48 | the patch sent is the allowed own properties of the body, normalised |
| EditarCliente.Find | api/admin/editar-cliente.js:69 | find returns the first matching user, with every user before it a non-match; nothing is found iff no user matches and the callback never throws; a throw is at the first user it cannot read |
| EditarCliente.TargetIsFirstMatch | api/admin/editar-cliente.js:66-71 | the user moved is the first whose lower-cased email is the old address, in a listing that came back without error, and has a truthy id |
| EditarCliente.SyncAuthEmail | api/admin/editar-cliente.js:62-83 | nothing happens unless both addresses are non-empty and differ; then the listing, and the update of the target user only; `authEmailUpdated` iff a target exists and its update succeeded |
| EditarCliente.Handle | api/admin/editar-cliente.js:3-89 | 405 before authorisation; requireAlfa's refusal; a 400 iff the trimmed slug is empty; then the select by slug and the update with the normalised patch; 200 iff neither database call failed and both addresses could be read (any sync failure still gives 200), with `authEmailUpdated` as SyncAuthEmail computes it |

## Left out

- I/O and the platform are parameters, not modelled: the network fetch of the JWKS, `crypto.createPublicKey`/`crypto.verify`, `Buffer.from` base64 decoding, UTF-8 decoding, `JSON.parse`, the Supabase client and `res.setHeader`/`res.end`.
- `readBody`'s chunked stream is left out. The body is the text it delivers.
- `getQuery`'s URL parsing in produtos.js is left out. The query string is a map of its parameters; Vercel's repeated parameters and a URL the parser refuses are left out.
- Authorization header values are strings of characters, not UTF-16 code units. `toLowerCase` is modelled on ASCII letters only.
- Numbers are integers. `Number(...)` reads decimal integers, and NaN stands for everything else (fractions, exponents, hexadecimal), so a fractional `preco` or `ordem` becomes 0 in the model.
- Database ordering (`.order(...)`) is the database's business and is not modelled. `.single()` errors come from the database parameter.
- The `details` text of 500 replies and the message of a caught exception are not modelled. Such replies are `Http.ServerError`, or `Http.Uncaught` for an exception that escapes the handler.
- `createClient` at module load in clientes.js and categorias.js (which can throw before any request) is left out. So is a Supabase call that throws instead of returning `{ error }`.
- api/_lib/supabaseAdmin.js is not part of this model. `supabaseAdmin()` is taken to throw exactly when the service-role key is missing.
- The internals of `requireAlfa` are not part of this model: its file, api/_lib/supabase.js, is not available. Its decision is a parameter, and an exception it throws is not modelled.
- The `json` helper of api/_lib/supabase.js is not part of this model either. editar-cliente replies are taken to carry only the JSON content type.
- api/admin/reset-senha.js and script.js lie outside this model.
- A key cache and its single-flight refresh do not exist in the code, so the model has none.
- Concurrency between requests: every handler is modelled as one sequential run.
