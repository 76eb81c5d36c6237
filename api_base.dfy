/** The base URL of the HTTP client: the configured origin (or the local
    development server when none is configured) with one trailing "/api" or
    "/api/" removed, then every trailing slash removed, then "/api/"
    appended. */
module ApiBase {
  import opened Common

  const DefaultOrigin := "http://127.0.0.1:8000"
  const ApiSuffix := "/api/"

  predicate EndsWith(s: string, t: string)
  {
    |t| <= |s| && s[|s| - |t|..] == t
  }

  /** `.replace(/\/api\/?$/, '')`: the regex can only match at the very end,
      and "/api/" is tried at the earlier position. */
  function StripApi(s: string): (r: string)
    ensures s == r || s == r + "/api" || s == r + "/api/"
  {
    if EndsWith(s, "/api/") then s[..|s| - 5]
    else if EndsWith(s, "/api") then s[..|s| - 4]
    else s
  }

  /** `.replace(/\/+$/, '')`: the whole run of trailing slashes goes. */
  function TrimSlashes(s: string): (r: string)
    ensures r == [] || r[|r| - 1] != '/'
    ensures |r| <= |s| && s[..|r|] == r
    ensures forall i :: |r| <= i < |s| ==> s[i] == '/'
  {
    if s != [] && s[|s| - 1] == '/' then TrimSlashes(s[..|s| - 1]) else s
  }

  /** `import.meta.env.VITE_API_URL || 'http://127.0.0.1:8000'`: an unset or
      empty variable falls back to the default. */
  function Origin(env: Option<string>): (r: string)
    ensures r != []
  {
    if env.None? || env.value == "" then DefaultOrigin else env.value
  }

  /** The `baseURL` expression. */
  function Normalize(env: Option<string>): (r: string)
    ensures EndsWith(r, ApiSuffix)
    ensures |r| >= 5 && (r[..|r| - 5] == [] || r[|r| - 6] != '/')
  {
    var p := TrimSlashes(StripApi(Origin(env)));
    assert (p + ApiSuffix)[..|p|] == p;
    p + ApiSuffix
  }

  /** Text that ends in neither a slash nor "/api" goes through both
      replacements unchanged. */
  lemma Untouched(s: string)
    requires s != [] && s[|s| - 1] != '/' && !EndsWith(s, "/api")
    ensures TrimSlashes(StripApi(s)) == s
  {
  }

  /** With nothing configured, the client talks to the local server. */
  lemma NormalizeDefault()
    ensures Normalize(None) == "http://127.0.0.1:8000/api/"
    ensures Normalize(Some("")) == "http://127.0.0.1:8000/api/"
  {
    assert DefaultOrigin[|DefaultOrigin| - 1] == '0';
    Untouched(DefaultOrigin);
  }

  /** An origin with no trailing slash and no "/api" suffix just gets
      "/api/" appended. */
  lemma PlainOrigin(s: string)
    requires s != [] && s[|s| - 1] != '/' && !EndsWith(s, "/api")
    ensures Normalize(Some(s)) == s + ApiSuffix
  {
    Untouched(s);
  }

  lemma StripApiAfterApi(u: string)
    ensures StripApi(u + "/api") == u
  {
    var t := u + "/api";
    assert t[|t| - 1] == 'i';
    assert t[|t| - 4..] == "/api";
  }

  lemma StripApiAfterApiSlash(u: string)
    ensures StripApi(u + "/api/") == u
  {
    var t := u + "/api/";
    assert t[|t| - 5..] == "/api/";
  }

  /** Normalising a normalised URL changes nothing. */
  lemma NormalizeIdempotent(env: Option<string>)
    ensures Normalize(Some(Normalize(env))) == Normalize(env)
  {
    var r := Normalize(env);
    var p := r[..|r| - 5];
    assert r == p + ApiSuffix;
    StripApiAfterApiSlash(p);
  }

  /** Only one "/api" is removed: an origin ending in "/api/api" keeps the
      first of the two before the suffix is appended. */
  lemma OneApiRemoved(s: string)
    requires s != [] && s[|s| - 1] != '/' && !EndsWith(s, "/api")
    ensures Normalize(Some(s + "/api" + "/api")) == s + "/api" + ApiSuffix
  {
    StripApiAfterApi(s + "/api");
    var u := s + "/api";
    assert u[|u| - 1] == 'i';
  }

  /** The slashes before a trailing "/api" go as well: "host//api/" and
      "host" give the same base URL. */
  lemma SlashesBeforeApiRemoved(s: string, slashes: nat)
    requires s != [] && s[|s| - 1] != '/' && !EndsWith(s, "/api")
    ensures Normalize(Some(s + Slashes(slashes) + "/api/")) == s + ApiSuffix
  {
    var t := s + Slashes(slashes) + "/api/";
    assert t[|t| - 5..] == "/api/";
    assert StripApi(t) == s + Slashes(slashes);
    TrimSlashesRun(s, slashes);
  }

  function Slashes(n: nat): (r: string)
    ensures |r| == n && forall i :: 0 <= i < n ==> r[i] == '/'
  {
    if n == 0 then [] else Slashes(n - 1) + ['/']
  }

  lemma {:induction false} TrimSlashesRun(s: string, n: nat)
    requires s != [] && s[|s| - 1] != '/'
    ensures TrimSlashes(s + Slashes(n)) == s
    decreases n
  {
    if n > 0 {
      var t := s + Slashes(n);
      assert t[..|t| - 1] == s + Slashes(n - 1);
      TrimSlashesRun(s, n - 1);
    } else {
      assert s + Slashes(0) == s;
    }
  }
}
