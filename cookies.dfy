/** The cookie scoping of lib/cookies.js: every cookie the target site sets is moved under the
    proxy prefix followed by an eight-digit token derived from the site's origin, so that cookies of
    different sites never reach each other through the one proxy host. */
module Cookies {
  import opened Common

  /** A parsed `Set-Cookie` value: the two attributes the proxy rewrites, and the rest kept as
      they came. */
  datatype CookieRecord = CookieRecord(name: string, value: string, path: Option<string>,
                                       domain: Option<string>, attributes: map<string, string>)

  /** The token of an origin: the first eight hex digits of the SHA-256 of `protocol//host`. */
  function Token(u: Url, hash: Hasher): Hex8 {
    hash(u.protocol + "//" + u.host)
  }

  /** Splits a scoped path into the token and the site's own path; None for a path the proxy did
      not scope. */
  function Unscope(prefix: string, p: string): Option<(string, string)> {
    if StartsWith(p, prefix) && |prefix| + 8 <= |p| then Some((p[|prefix|..|prefix| + 8], p[|prefix| + 8..]))
    else None
  }

  /** `config.prefix + hashed + (cookie.path || "")`: the site's own path survives behind the
      token and can be recovered. */
  function ScopedPath(prefix: string, token: Hex8, path: Option<string>): (r: string)
    ensures StartsWith(r, prefix + token)
    ensures Unscope(prefix, r) == Some((token, OrEmpty(path)))
  {
    var r := prefix + token + OrEmpty(path);
    assert r[..|prefix|] == prefix;
    assert r[|prefix|..|prefix| + 8] == token;
    assert r[|prefix| + 8..] == OrEmpty(path);
    assert r[..|prefix + token|] == prefix + token;
    r
  }

  /** The rewrite applied to one cookie: the path is scoped and the domain becomes the proxy's
      own host name; name, value and every other attribute are kept. */
  function Scope(c: CookieRecord, prefix: string, token: Hex8, hostname: string): (r: CookieRecord)
    ensures r.name == c.name && r.value == c.value && r.attributes == c.attributes
    ensures r.domain == Some(hostname)
    ensures r.path.Some? && Unscope(prefix, r.path.value) == Some((token, OrEmpty(c.path)))
  {
    c.(path := Some(ScopedPath(prefix, token, c.path)), domain := Some(hostname))
  }

  /** The cookies of one response, each rewritten in turn and kept in order. */
  function ScopeAll(cs: seq<CookieRecord>, prefix: string, token: Hex8, hostname: string): (r: seq<CookieRecord>)
    ensures |r| == |cs|
    ensures forall k :: 0 <= k < |r| ==>
      r[k].name == cs[k].name && r[k].value == cs[k].value && r[k].attributes == cs[k].attributes &&
      r[k].domain == Some(hostname) && r[k].path.Some? &&
      Unscope(prefix, r[k].path.value) == Some((token, OrEmpty(cs[k].path)))
  {
    if cs == [] then []
    else [Scope(cs[0], prefix, token, hostname)] + ScopeAll(cs[1..], prefix, token, hostname)
  }

  /** Path matching of section 5.1.4 of RFC 6265: the browser sends a cookie with path `cp` along
      with a request for `req`. */
  predicate PathMatches(req: string, cp: string) {
    req == cp || (StartsWith(req, cp) && (EndsWith(cp, "/") || req[|cp|] == '/'))
  }

  /** A request the browser sends a scoped cookie with lies under the prefix and that token. */
  lemma ScopedCookieStaysUnder(req: string, prefix: string, token: Hex8, path: Option<string>)
    requires PathMatches(req, ScopedPath(prefix, token, path))
    ensures StartsWith(req, prefix + token)
  {
    var cp := ScopedPath(prefix, token, path);
    assert StartsWith(req, cp);
    assert req[..|prefix + token|] == cp[..|prefix + token|];
  }

  /** Cookies scoped under different tokens never go out with the same request, whatever their
      own paths: the sites behind the proxy keep their cookies apart. */
  lemma ScopesDisjoint(req: string, prefix: string, t1: Hex8, t2: Hex8, p1: Option<string>, p2: Option<string>)
    requires PathMatches(req, ScopedPath(prefix, t1, p1))
    requires PathMatches(req, ScopedPath(prefix, t2, p2))
    ensures t1 == t2
  {
    ScopedCookieStaysUnder(req, prefix, t1, p1);
    ScopedCookieStaysUnder(req, prefix, t2, p2);
    assert req[|prefix|..|prefix| + 8] == (prefix + t1)[|prefix|..];
    assert req[|prefix|..|prefix| + 8] == (prefix + t2)[|prefix|..];
  }

  /** The token depends on the origin alone: a cookie that one page of a site sets for its root
      path goes out with requests for every page of the same origin under the proxy. */
  lemma SameOriginShares(prefix: string, u1: Url, u2: Url, hash: Hasher, rest: string)
    requires u1.protocol == u2.protocol && u1.host == u2.host
    ensures PathMatches(prefix + Token(u2, hash) + "/" + rest, ScopedPath(prefix, Token(u1, hash), Some("/")))
  {
    var cp := ScopedPath(prefix, Token(u1, hash), Some("/"));
    assert cp == prefix + Token(u2, hash) + "/";
    var req := cp + rest;
    assert req[..|cp|] == cp;
    assert cp[|cp| - 1..] == "/";
  }

  /** A cookie object whose attributes `rewriteCookie` assigns in place. */
  class Cookie {
    var name: string
    var value: string
    var path: Option<string>
    var domain: Option<string>
    var attributes: map<string, string>

    constructor (r: CookieRecord)
      ensures Record() == r
    {
      name, value, path, domain, attributes := r.name, r.value, r.path, r.domain, r.attributes;
    }

    function Record(): CookieRecord
      reads this
    {
      CookieRecord(name, value, path, domain, attributes)
    }
  }

  /** `rewriteCookie`: both URLs are parsed first (the original one only for its exception), then
      the cookie is scoped by the token of the next URL and given its host name as domain. The
      same cookie object is what the source returns. */
  method RewriteCookie(cookie: Cookie, prefix: string, originalUrl: string, nextUrl: string,
                       parse: UrlParser, hash: Hasher) returns (thrown: bool)
    modifies cookie
    ensures thrown <==> parse(originalUrl).None? || parse(nextUrl).None?
    ensures thrown ==> cookie.Record() == old(cookie.Record())
    ensures !thrown ==>
      var next := parse(nextUrl).value;
      cookie.Record() == Scope(old(cookie.Record()), prefix, Token(next, hash), next.hostname)
  {
    var originalUri := parse(originalUrl);
    if originalUri.None? {
      return true;
    }
    var nextUri := parse(nextUrl);
    if nextUri.None? {
      return true;
    }
    var hashed := hash(nextUri.value.protocol + "//" + nextUri.value.host);
    cookie.path := Some(prefix + hashed + OrEmpty(cookie.path));
    cookie.domain := Some(nextUri.value.hostname);
    thrown := false;
  }

  /** The response from the target site: its `set-cookie` header as parsed cookies (None when
      absent) and its other headers. */
  class TargetResponse {
    var setCookie: Option<seq<CookieRecord>>
    var headers: map<string, string>

    constructor (setCookie: Option<seq<CookieRecord>>, headers: map<string, string>)
      ensures this.setCookie == setCookie && this.headers == headers
    {
      this.setCookie, this.headers := setCookie, headers;
    }
  }

  function CookiesOf(header: Option<seq<CookieRecord>>): seq<CookieRecord> {
    match header
    case Some(cs) => cs
    case None => []
  }

  /** `transformCookies`: both URLs are parsed first; every cookie is scoped by the token of the
      target URL and given the next URL's host name as domain, and the header is written back
      (as an empty list when the site set none). Nothing else in the response changes. */
  method TransformCookies(response: TargetResponse, prefix: string, targetUrl: string, nextUrl: string,
                          parse: UrlParser, hash: Hasher) returns (thrown: bool)
    modifies response
    ensures thrown <==> parse(targetUrl).None? || parse(nextUrl).None?
    ensures response.headers == old(response.headers)
    ensures thrown ==> response.setCookie == old(response.setCookie)
    ensures !thrown ==>
      response.setCookie == Some(ScopeAll(CookiesOf(old(response.setCookie)), prefix,
                                          Token(parse(targetUrl).value, hash), parse(nextUrl).value.hostname))
  {
    var targetUri := parse(targetUrl);
    if targetUri.None? {
      return true;
    }
    var nextUri := parse(nextUrl);
    if nextUri.None? {
      return true;
    }
    var cookies := CookiesOf(response.setCookie);
    response.setCookie := Some(ScopeAll(cookies, prefix, Token(targetUri.value, hash), nextUri.value.hostname));
    thrown := false;
  }

  /** After a successful transform every cookie of the response is sent back only under the
      prefix and the target site's token, and cookie names, values and order are kept. */
  lemma TransformedCookiesScoped(cs: seq<CookieRecord>, prefix: string, target: Url, hostname: string,
                                 hash: Hasher, k: nat, req: string)
    requires k < |cs|
    requires var r := ScopeAll(cs, prefix, Token(target, hash), hostname);
      r[k].path.Some? && PathMatches(req, r[k].path.value)
    ensures StartsWith(req, prefix + Token(target, hash))
    ensures ScopeAll(cs, prefix, Token(target, hash), hostname)[k].name == cs[k].name
  {
    var r := ScopeAll(cs, prefix, Token(target, hash), hostname);
    var u := Unscope(prefix, r[k].path.value).value;
    assert r[k].path.value == ScopedPath(prefix, Token(target, hash), Some(u.1)) by {
      var p := r[k].path.value;
      assert p[..|prefix|] == prefix && p[|prefix|..|prefix| + 8] == u.0 == Token(target, hash);
      assert p == p[..|prefix|] + p[|prefix|..|prefix| + 8] + p[|prefix| + 8..];
    }
    ScopedCookieStaysUnder(req, prefix, Token(target, hash), Some(u.1));
  }

  /** The transform of `createCookieTransform`: each object chunk is handed on as it came, so a
      stream of chunks comes out exactly as it went in. */
  function CookieTransform(chunks: seq<string>): (out: seq<string>)
    ensures |out| == |chunks| && forall k :: 0 <= k < |out| ==> out[k] == chunks[k]
  {
    if chunks == [] then [] else [chunks[0]] + CookieTransform(chunks[1..])
  }
}
