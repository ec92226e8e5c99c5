/**
 * The ADMIN_EMAILS allowlist: the environment value split at commas, each
 * entry trimmed and lower-cased, empty entries dropped. The same chain is
 * written out in clientes.js, categorias.js and _lib/auth.js.
 */
module AdminEmails {
  import opened Js

  /** `s.trim().toLowerCase()` */
  function NormalizeEntry(s: string): string {
    Lower(Trim(s))
  }

  /** `.map(s => s.trim().toLowerCase())` */
  function NormalizeAll(pieces: seq<string>): seq<string> {
    seq(|pieces|, i requires 0 <= i < |pieces| => NormalizeEntry(pieces[i]))
  }

  /** `.filter(Boolean)` on strings */
  function KeepNonEmpty(xs: seq<string>): seq<string> {
    if xs == [] then []
    else if xs[0] == "" then KeepNonEmpty(xs[1..])
    else [xs[0]] + KeepNonEmpty(xs[1..])
  }

  /** `(env || "").split(",")` */
  function Pieces(env: Option<string>): seq<string> {
    Split(if env.None? then "" else env.value, ',')
  }

  /** `(env || "").split(",").map(s => s.trim().toLowerCase()).filter(Boolean)` */
  function Parse(env: Option<string>): seq<string> {
    KeepNonEmpty(NormalizeAll(Pieces(env)))
  }

  lemma {:induction false} KeepNonEmptyMembers(xs: seq<string>, x: string)
    ensures x in KeepNonEmpty(xs) <==> x != "" && x in xs
  {
    if xs != [] {
      KeepNonEmptyMembers(xs[1..], x);
      assert xs == [xs[0]] + xs[1..];
    }
  }

  lemma NormalizeEntryIsNormal(s: string)
    ensures Trim(NormalizeEntry(s)) == NormalizeEntry(s)
    ensures Lower(NormalizeEntry(s)) == NormalizeEntry(s)
  {
    var t := Trim(s);
    TrimFacts(s);
    LowerFacts(t);
    TrimFacts(Lower(t));
  }

  /** Every allowlist entry is non-empty, trimmed and lower-case. */
  lemma EntriesAreNormal(env: Option<string>)
    ensures forall e :: e in Parse(env) ==> e != "" && Trim(e) == e && Lower(e) == e
  {
    var normalized := NormalizeAll(Pieces(env));
    forall e | e in Parse(env) ensures e != "" && Trim(e) == e && Lower(e) == e {
      KeepNonEmptyMembers(normalized, e);
      var i :| 0 <= i < |normalized| && normalized[i] == e;
      NormalizeEntryIsNormal(Pieces(env)[i]);
    }
  }

  /**
   * An address is on the allowlist exactly when it is non-empty and is the
   * normal form of one of the comma-separated pieces of the variable.
   */
  lemma Membership(env: Option<string>, e: string)
    ensures e in Parse(env) <==> e != "" && exists i :: 0 <= i < |Pieces(env)| && NormalizeEntry(Pieces(env)[i]) == e
  {
    var pieces := Pieces(env);
    var normalized := NormalizeAll(pieces);
    assert Parse(env) == KeepNonEmpty(normalized);
    KeepNonEmptyMembers(normalized, e);
    if e in normalized {
      var i :| 0 <= i < |pieces| && normalized[i] == e;
      assert NormalizeEntry(pieces[i]) == e;
    }
    if exists i :: 0 <= i < |pieces| && NormalizeEntry(pieces[i]) == e {
      var i :| 0 <= i < |pieces| && NormalizeEntry(pieces[i]) == e;
      assert normalized[i] == e;
    }
  }

  /** Only whitespace and commas: nothing an entry could be made of. */
  predicate Blank(s: string) {
    forall i :: 0 <= i < |s| ==> IsSpace(s[i]) || s[i] == ','
  }

  lemma TrimEmptyIff(s: string)
    ensures Trim(s) == "" <==> AllSpace(s)
  {
    TrimStartFacts(s);
    TrimEndFacts(TrimStart(s));
  }

  lemma {:induction false} KeepNonEmptyIsEmpty(xs: seq<string>)
    ensures KeepNonEmpty(xs) == [] <==> forall i :: 0 <= i < |xs| ==> xs[i] == ""
  {
    if xs != [] {
      KeepNonEmptyIsEmpty(xs[1..]);
      if KeepNonEmpty(xs) == [] {
        forall i | 0 <= i < |xs| ensures xs[i] == "" {
          if i > 0 { assert xs[i] == xs[1..][i - 1]; }
        }
      }
    }
  }

  lemma BlankConcat(a: string, b: string)
    ensures Blank(a + b) <==> Blank(a) && Blank(b)
  {
    if Blank(a + b) {
      forall k | 0 <= k < |a| ensures IsSpace(a[k]) || a[k] == ',' {
        assert (a + b)[k] == a[k];
      }
      forall k | 0 <= k < |b| ensures IsSpace(b[k]) || b[k] == ',' {
        assert (a + b)[|a| + k] == b[k];
      }
    }
  }

  lemma BlankWithoutComma(p: string)
    requires ',' !in p
    ensures Blank(p) <==> AllSpace(p)
  {
    if Blank(p) {
      forall k | 0 <= k < |p| ensures IsSpace(p[k]) {
        assert p[k] in p;
      }
    }
  }

  lemma {:induction false} BlankJoin(ps: seq<string>)
    requires forall i :: 0 <= i < |ps| ==> ',' !in ps[i]
    ensures Blank(Join(ps, ',')) <==> forall i :: 0 <= i < |ps| ==> AllSpace(ps[i])
  {
    if |ps| == 1 {
      BlankWithoutComma(ps[0]);
    } else if |ps| > 1 {
      BlankJoin(ps[1..]);
      BlankWithoutComma(ps[0]);
      BlankConcat(ps[0] + [','], Join(ps[1..], ','));
      BlankConcat(ps[0], [',']);
      assert forall i :: 1 <= i < |ps| ==> ps[i] == ps[1..][i - 1];
    }
  }

  /**
   * The allowlist is empty exactly when the variable is unset or holds only
   * whitespace and commas; in particular an unset variable gives no entry.
   */
  lemma EmptyIffBlank(env: Option<string>)
    ensures Parse(env) == [] <==> env.None? || Blank(env.value)
  {
    var raw := if env.None? then "" else env.value;
    var pieces := Pieces(env);
    SplitJoin(raw, ',');
    SplitPiecesFree(raw, ',');
    BlankJoin(pieces);
    var normalized := NormalizeAll(pieces);
    KeepNonEmptyIsEmpty(normalized);
    assert |normalized| == |pieces| && forall i :: 0 <= i < |pieces| ==> normalized[i] == NormalizeEntry(pieces[i]);
    forall i | 0 <= i < |pieces| ensures NormalizeEntry(pieces[i]) == "" <==> AllSpace(pieces[i]) {
      TrimEmptyIff(pieces[i]);
      LowerFacts(Trim(pieces[i]));
    }
  }
}
