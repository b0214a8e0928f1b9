/** The refresh-token cookie helper of internal/pkg/cookie/gcookie.go. The
    manager only holds its configuration; each call chooses the arguments
    of the framework's SameSite and SetCookie calls, modelled as values. */
module Cookie {
  import opened Wrappers

  /** net/http's SameSite modes. */
  datatype SameSite = SameSiteDefaultMode | SameSiteLaxMode | SameSiteStrictMode | SameSiteNoneMode

  datatype CookieConfig = CookieConfig(
    name: string,
    path: string,
    domain: string,
    maxAge: int,
    secure: bool,
    httpOnly: bool,
    sameSite: string)

  /** parseSameSite: the three names, exactly and case-sensitively; any
      other string is the default mode. */
  function ParseSameSite(s: string): (m: SameSite)
    ensures m == SameSiteLaxMode <==> s == "Lax"
    ensures m == SameSiteStrictMode <==> s == "Strict"
    ensures m == SameSiteNoneMode <==> s == "None"
    ensures m == SameSiteDefaultMode <==> s !in {"Lax", "Strict", "None"}
  {
    match s
    case "Lax" => SameSiteLaxMode
    case "Strict" => SameSiteStrictMode
    case "None" => SameSiteNoneMode
    case _ => SameSiteDefaultMode
  }

  /** The first request cookie named `name`, as the request's cookie lookup
      finds it; None when there is no such cookie. */
  function FindCookie(jar: seq<(string, string)>, name: string): (r: Option<string>)
    ensures r.None? <==> forall i :: 0 <= i < |jar| ==> jar[i].0 != name
    ensures r.Some? ==> exists i :: 0 <= i < |jar| && jar[i] == (name, r.value)
                                   && forall k :: 0 <= k < i ==> jar[k].0 != name
  {
    if jar == [] then None
    else if jar[0].0 == name then Some(jar[0].1)
    else
      var r := FindCookie(jar[1..], name);
      if r.Some? then
        var i :| 0 <= i < |jar[1..]| && jar[1..][i] == (name, r.value) && forall k :: 0 <= k < i ==> jar[1..][k].0 != name;
        assert jar[i + 1] == (name, r.value);
        r
      else r
  }

  /** The arguments of one SetCookie call on the request context. */
  datatype CookieArgs = CookieArgs(
    name: string,
    value: string,
    maxAge: int,
    path: string,
    domain: string,
    secure: bool,
    httpOnly: bool)

  /** What one manager call does to the context: the SameSite mode it sets
      first, if any, and the cookie it then writes. */
  datatype Effect = Effect(setSameSite: Option<SameSite>, cookie: CookieArgs)

  /** CookieManager; the configuration is fixed at construction. */
  datatype CookieManager = CookieManager(cfg: CookieConfig)

  function NewCookieManager(cfg: CookieConfig): (m: CookieManager)
    ensures m.cfg == cfg
  {
    CookieManager(cfg)
  }

  /** Set: applies the configured SameSite, then writes the cookie with the
      configured name, path, domain, flags and lifetime and the given value. */
  function Set(m: CookieManager, value: string): (e: Effect)
    ensures e.setSameSite == Some(ParseSameSite(m.cfg.sameSite))
    ensures e.cookie.name == m.cfg.name && e.cookie.value == value && e.cookie.maxAge == m.cfg.maxAge
    ensures e.cookie.path == m.cfg.path && e.cookie.domain == m.cfg.domain
    ensures e.cookie.secure == m.cfg.secure && e.cookie.httpOnly == m.cfg.httpOnly
  {
    Effect(Some(ParseSameSite(m.cfg.sameSite)),
           CookieArgs(m.cfg.name, value, m.cfg.maxAge, m.cfg.path, m.cfg.domain, m.cfg.secure, m.cfg.httpOnly))
  }

  /** Get: the first request cookie under the configured name, and no
      other; an error when there is none. */
  function Get(m: CookieManager, jar: seq<(string, string)>): (r: Result<string, string>)
    ensures r.Ok? <==> exists i :: 0 <= i < |jar| && jar[i].0 == m.cfg.name
    ensures r.Ok? ==> r == Ok(FindCookie(jar, m.cfg.name).value)
  {
    match FindCookie(jar, m.cfg.name)
    case None => Err("http: named cookie not present")
    case Some(v) => Ok(v)
  }

  /** Remove: sets no SameSite of its own, and writes an empty value with
      Max-Age -1 under the same name, path, domain and flags Set uses. */
  function Remove(m: CookieManager): (e: Effect)
    ensures e.setSameSite == None
    ensures e.cookie.value == "" && e.cookie.maxAge == -1
    ensures forall v :: e.cookie == Set(m, v).cookie.(value := "", maxAge := -1)
  {
    Effect(None, CookieArgs(m.cfg.name, "", -1, m.cfg.path, m.cfg.domain, m.cfg.secure, m.cfg.httpOnly))
  }

  /** Set and Remove address the same cookie, so a browser that stored the
      first deletes it on the second, and Get reads back under that name. */
  lemma SetAndRemoveAgree(m: CookieManager, value: string)
    ensures var s, r := Set(m, value).cookie, Remove(m).cookie;
            s.name == r.name == m.cfg.name && s.path == r.path && s.domain == r.domain
    ensures Get(m, [(Set(m, value).cookie.name, value)]) == Ok(value)
  {
  }

  /** A cookie jar holding a value under the configured name yields it,
      whatever other cookies precede it under other names. */
  lemma GetReadsOnlyItsName(cfg: CookieConfig, others: seq<(string, string)>, value: string, rest: seq<(string, string)>)
    requires forall i :: 0 <= i < |others| ==> others[i].0 != cfg.name
    ensures FindCookie(others + [(cfg.name, value)] + rest, cfg.name) == Some(value)
  {
    var jar := others + [(cfg.name, value)] + rest;
    var r := FindCookie(jar, cfg.name);
    assert jar[|others|] == (cfg.name, value);
    if r.Some? {
      var i :| 0 <= i < |jar| && jar[i] == (cfg.name, r.value) && forall k :: 0 <= k < i ==> jar[k].0 != cfg.name;
      if i != |others| {
        assert false;
      }
    }
  }
}
