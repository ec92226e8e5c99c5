/**
 * The setCors functions: which request origins are echoed back in
 * Access-Control-Allow-Origin, and the headers every response carries.
 * clientes.js and categorias.js share one version, produtos.js has its own.
 */
module Cors {
  import opened Js

  type Headers = map<string, string>

  const AllowOrigin := "Access-Control-Allow-Origin"
  const AllowHeadersValue := "authorization, content-type, x-requested-with"
  const PreviewSuffix := ".vercel.app"

  const AdminOrigins: seq<string> := [
    "https://playmomentsstudios-commits.github.io",
    "https://playmomentsstudios-commits.github.io/cafeteria",
    "https://playmomentsstudios-commits.github.io/cafeteria/"
  ]

  const ProductOrigins: seq<string> := [
    "https://playmomentsstudios-commits.github.io",
    "http://localhost:3000",
    "http://localhost:5173"
  ]

  /** `req.headers.origin || ""` */
  function OriginOf(origin: Option<string>): string {
    if origin.None? then "" else origin.value
  }

  /** `ALLOWED_ORIGINS.some(o => origin === o || origin.startsWith(o)) || origin.endsWith(".vercel.app")` */
  predicate AdminAllowed(origin: string) {
    (exists i :: 0 <= i < |AdminOrigins| && (origin == AdminOrigins[i] || StartsWith(origin, AdminOrigins[i])))
    || EndsWith(origin, PreviewSuffix)
  }

  /** `ALLOWED_ORIGINS.includes(origin) || origin.endsWith(".vercel.app")` */
  predicate ProductAllowed(origin: string) {
    origin in ProductOrigins || EndsWith(origin, PreviewSuffix)
  }

  /** The headers setCors of clientes.js and categorias.js sets. */
  function AdminHeaders(origin: Option<string>): Headers {
    var o := OriginOf(origin);
    var always := map[
      "Vary" := "Origin",
      "Access-Control-Allow-Credentials" := "true",
      "Access-Control-Allow-Headers" := AllowHeadersValue,
      "Access-Control-Allow-Methods" := "GET,POST,PUT,PATCH,DELETE,OPTIONS"
    ];
    if AdminAllowed(o) then always[AllowOrigin := o] else always
  }

  /** The headers setCors of produtos.js sets: no credentials header, no PUT. */
  function ProductHeaders(origin: Option<string>): Headers {
    var o := OriginOf(origin);
    var always := map[
      "Vary" := "Origin",
      "Access-Control-Allow-Methods" := "GET,POST,PATCH,DELETE,OPTIONS",
      "Access-Control-Allow-Headers" := AllowHeadersValue
    ];
    if ProductAllowed(o) then always[AllowOrigin := o] else always
  }

  /**
   * The admin handlers echo the origin, and nothing else, exactly when it is
   * allowed; the four other headers are always there with fixed values.
   */
  lemma AdminHeadersFacts(origin: Option<string>)
    ensures var h, o := AdminHeaders(origin), OriginOf(origin);
      && (AllowOrigin in h <==> AdminAllowed(o))
      && (AllowOrigin in h ==> h[AllowOrigin] == o)
      && h.Keys - {AllowOrigin} == {"Vary", "Access-Control-Allow-Credentials", "Access-Control-Allow-Headers", "Access-Control-Allow-Methods"}
      && h["Vary"] == "Origin"
      && h["Access-Control-Allow-Credentials"] == "true"
      && h["Access-Control-Allow-Headers"] == AllowHeadersValue
      && h["Access-Control-Allow-Methods"] == "GET,POST,PUT,PATCH,DELETE,OPTIONS"
  {
  }

  lemma ProductHeadersFacts(origin: Option<string>)
    ensures var h, o := ProductHeaders(origin), OriginOf(origin);
      && (AllowOrigin in h <==> ProductAllowed(o))
      && (AllowOrigin in h ==> h[AllowOrigin] == o)
      && h.Keys - {AllowOrigin} == {"Vary", "Access-Control-Allow-Methods", "Access-Control-Allow-Headers"}
      && h["Vary"] == "Origin"
      && h["Access-Control-Allow-Methods"] == "GET,POST,PATCH,DELETE,OPTIONS"
      && h["Access-Control-Allow-Headers"] == AllowHeadersValue
  {
  }

  lemma StartsWithTrans(s: string, a: string, b: string)
    requires StartsWith(s, b) && StartsWith(b, a)
    ensures StartsWith(s, a)
  {
    assert s[..|a|] == s[..|b|][..|a|];
  }

  /**
   * Since the other two admin origins extend the first, the admin rule comes
   * down to: the origin starts with the GitHub Pages origin, or is a preview.
   */
  lemma AdminAllowedSimplified(origin: string)
    ensures AdminAllowed(origin) <==> StartsWith(origin, AdminOrigins[0]) || EndsWith(origin, PreviewSuffix)
  {
    if exists i :: 0 <= i < |AdminOrigins| && (origin == AdminOrigins[i] || StartsWith(origin, AdminOrigins[i])) {
      var i :| 0 <= i < |AdminOrigins| && (origin == AdminOrigins[i] || StartsWith(origin, AdminOrigins[i]));
      assert StartsWith(AdminOrigins[i], AdminOrigins[0]);
      if origin == AdminOrigins[i] {
        assert StartsWith(origin, AdminOrigins[i]);
      }
      StartsWithTrans(origin, AdminOrigins[0], AdminOrigins[i]);
    }
    if StartsWith(origin, AdminOrigins[0]) {
      assert 0 < |AdminOrigins|;
    }
  }

  /** Of the origins the product handler allows, the admin handlers allow all but the two localhost ones. */
  lemma ProductImpliesAdminExceptLocalhost(origin: string)
    requires ProductAllowed(origin)
    ensures AdminAllowed(origin) <==> origin != ProductOrigins[1] && origin != ProductOrigins[2]
  {
    AdminAllowedSimplified(origin);
    if origin == ProductOrigins[1] || origin == ProductOrigins[2] {
      assert origin[4] != AdminOrigins[0][4];
      assert !EndsWith(origin, PreviewSuffix);
    }
    if origin == ProductOrigins[0] {
      assert StartsWith(origin, AdminOrigins[0]);
    }
  }

  /**
   * The prefix rule admits any origin that merely begins with the GitHub
   * Pages origin, such as a host under a domain of someone else's; the exact
   * rule of produtos.js refuses it.
   */
  lemma PrefixRuleAdmitsLookalike()
    ensures var o := "https://playmomentsstudios-commits.github.io.attacker.example";
      AdminAllowed(o) && !ProductAllowed(o)
  {
    var o := "https://playmomentsstudios-commits.github.io.attacker.example";
    assert o[..|AdminOrigins[0]|] == AdminOrigins[0];
    AdminAllowedSimplified(o);
    assert o[|o| - |PreviewSuffix|..] != PreviewSuffix;
    assert o != ProductOrigins[0] && o != ProductOrigins[1] && o != ProductOrigins[2];
  }
}
