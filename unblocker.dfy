/** The routing core of lib/unblocker.js: configuration, the middleware chains, the recovery of a
    target from the referer, redirects, and the decision to redirect, proxy or give up. */
module Unblocker {
  import opened Common
  import RealUrl

  // ---------------------------------------------------------------------------------------------
  // Configuration
  // ---------------------------------------------------------------------------------------------

  /** `config.prefix` after construction: a '/' is appended only when the last one is missing. */
  function NormalizePrefix(p: string): (r: string)
    ensures EndsWith(r, "/")
    ensures EndsWith(p, "/") ==> r == p
    ensures !EndsWith(p, "/") ==> r == p + "/"
  {
    if |p| > 0 && p[|p| - 1] == '/' then p else p + "/"
  }

  lemma NormalizePrefixIdempotent(p: string)
    ensures NormalizePrefix(NormalizePrefix(p)) == NormalizePrefix(p)
  {
  }

  /** Middleware, by identity: the built-ins created by the constructor and the user's own. */
  datatype Middleware =
    | Host | Referer | DecompressRequest | CookiesRequest
    | Hsts | Hpkp | Csp | Redirects | DecompressResponse | Charsets | UrlPrefixer
    | CookiesResponse | MetaRobots | ContentLength | ClientScriptsInjector
    | User(id: nat)

  predicate AllUser(ms: seq<Middleware>) {
    forall k :: 0 <= k < |ms| ==> ms[k].User?
  }

  /** `Array.prototype.indexOf`: the first index of `m`, or -1. */
  function IndexOfMiddleware(ms: seq<Middleware>, m: Middleware): (r: int)
    ensures -1 <= r < |ms|
    ensures r >= 0 ==> ms[r] == m && forall k :: 0 <= k < r ==> ms[k] != m
    ensures r == -1 ==> m !in ms
  {
    if ms == [] then -1
    else if ms[0] == m then 0
    else
      var r := IndexOfMiddleware(ms[1..], m);
      if r == -1 then -1 else r + 1
  }

  /** The request chain: four built-ins, then the user's request middleware. */
  function RequestChain(user: seq<Middleware>): (r: seq<Middleware>)
    ensures |r| == 4 + |user|
    ensures r[..4] == [Host, Referer, DecompressRequest, CookiesRequest]
    ensures r[4..] == user
  {
    [Host, Referer, DecompressRequest, CookiesRequest] + user
  }

  /** The response chain before the client-script injector is spliced in. */
  function ResponseBase(user: seq<Middleware>): (r: seq<Middleware>)
    ensures |r| == 10 + |user|
    ensures r[..9] == [Hsts, Hpkp, Csp, Redirects, DecompressResponse, Charsets, UrlPrefixer, CookiesResponse, MetaRobots]
    ensures r[9..9 + |user|] == user && r[9 + |user|] == ContentLength
  {
    [Hsts, Hpkp, Csp, Redirects, DecompressResponse, Charsets, UrlPrefixer, CookiesResponse, MetaRobots]
      + user + [ContentLength]
  }

  /** `splice(indexOf(urlPrefixer) + 1, 0, injector)`: `m` goes right after the first URL
      prefixer, or to the front when there is none (indexOf gives -1); taking it out again gives
      back the chain. */
  function Splice(ms: seq<Middleware>, m: Middleware): (r: seq<Middleware>)
    ensures |r| == |ms| + 1
    ensures UrlPrefixer in ms ==>
      var i := IndexOfMiddleware(ms, UrlPrefixer); r[i] == UrlPrefixer && r[i + 1] == m
    ensures UrlPrefixer !in ms ==> r[0] == m
    ensures var pos := IndexOfMiddleware(ms, UrlPrefixer) + 1;
      r[pos] == m && r[..pos] + r[pos + 1..] == ms
  {
    var pos := IndexOfMiddleware(ms, UrlPrefixer) + 1;
    var r := ms[..pos] + [m] + ms[pos..];
    assert |ms[..pos]| == pos && r[pos] == m;
    assert r[..pos] == ms[..pos] && r[pos + 1..] == ms[pos..];
    assert ms[..pos] + ms[pos..] == ms;
    assert pos > 0 ==> r[pos - 1] == ms[pos - 1];
    r
  }

  /** The response chain: with client scripts the injector follows the URL prefixer, which is
      always at index 6 of the base chain; everything else keeps its place. */
  function ResponseChain(user: seq<Middleware>, clientScripts: bool): (r: seq<Middleware>)
    ensures |r| == |ResponseBase(user)| + (if clientScripts then 1 else 0)
    ensures !clientScripts ==> r == ResponseBase(user)
    ensures clientScripts ==>
      r[..7] == ResponseBase(user)[..7] && r[7] == ClientScriptsInjector && r[8..] == ResponseBase(user)[7..]
  {
    PrefixerAt(user);
    if clientScripts then
      var b := ResponseBase(user);
      var r := Splice(b, ClientScriptsInjector);
      assert r[..7] == b[..7] && r[8..] == b[7..] by {
        assert r[..7] + r[8..] == b;
        assert |r[..7]| == 7;
      }
      r
    else ResponseBase(user)
  }

  lemma PrefixerAt(user: seq<Middleware>)
    ensures IndexOfMiddleware(ResponseBase(user), UrlPrefixer) == 6
  {
    var b := ResponseBase(user);
    assert b[6] == UrlPrefixer;
    assert forall k :: 0 <= k < 6 ==> b[k] != UrlPrefixer;
  }

  /** With client scripts on, the injector comes right after the URL prefixer; content length is
      last; the user's middleware sits, in order, just before it; cookies follow decompression. */
  lemma {:induction false} ResponseChainOrder(user: seq<Middleware>, clientScripts: bool)
    requires AllUser(user)
    ensures var r := ResponseChain(user, clientScripts);
      var u := if clientScripts then 10 else 9;
      |r| == u + |user| + 1 &&
      r[6] == UrlPrefixer && (clientScripts ==> r[7] == ClientScriptsInjector) &&
      r[u..u + |user|] == user && r[|r| - 1] == ContentLength &&
      r[4] == DecompressResponse && r[u - 2] == CookiesResponse
  {
    PrefixerAt(user);
    var b := ResponseBase(user);
    if clientScripts {
      var r := Splice(b, ClientScriptsInjector);
      assert r == b[..7] + [ClientScriptsInjector] + b[7..];
      assert r[10..10 + |user|] == b[9..9 + |user|];
      assert b[9..9 + |user|] == user;
    } else {
      assert b[9..9 + |user|] == user;
    }
  }

  /** The configuration object that the constructor mutates. */
  class Config {
    var prefix: string
    var host: Option<string>
    var requestMiddleware: seq<Middleware>
    var responseMiddleware: seq<Middleware>
    var standardMiddleware: bool
    var clientScripts: bool

    /** A configuration with the library defaults filled in (`_.defaults`). */
    constructor (prefix: Option<string>, host: Option<string>, requestMiddleware: seq<Middleware>,
                 responseMiddleware: seq<Middleware>, standardMiddleware: bool, clientScripts: bool)
      ensures this.prefix == (if prefix.Some? then prefix.value else "/proxy/")
      ensures this.host == host && this.requestMiddleware == requestMiddleware
      ensures this.responseMiddleware == responseMiddleware
      ensures this.standardMiddleware == standardMiddleware && this.clientScripts == clientScripts
    {
      this.prefix := if prefix.Some? then prefix.value else "/proxy/";
      this.host, this.requestMiddleware, this.responseMiddleware := host, requestMiddleware, responseMiddleware;
      this.standardMiddleware, this.clientScripts := standardMiddleware, clientScripts;
    }

    /** The configuration steps of `Unblocker(config)`. */
    method Setup()
      modifies this
      ensures prefix == NormalizePrefix(old(prefix))
      ensures standardMiddleware ==>
        (requestMiddleware == RequestChain(old(requestMiddleware)) &&
         responseMiddleware == ResponseChain(old(responseMiddleware), clientScripts))
      ensures !standardMiddleware ==>
        (requestMiddleware == old(requestMiddleware) && responseMiddleware == old(responseMiddleware))
      ensures host == old(host) && standardMiddleware == old(standardMiddleware) &&
        clientScripts == old(clientScripts)
    {
      if !(|prefix| > 0 && prefix[|prefix| - 1] == '/') {
        prefix := prefix + "/";
      }
      if standardMiddleware {
        ghost var user := responseMiddleware;
        requestMiddleware := [Host, Referer, DecompressRequest, CookiesRequest] + requestMiddleware;
        responseMiddleware := [Hsts, Hpkp, Csp, Redirects, DecompressResponse, Charsets, UrlPrefixer,
                               CookiesResponse, MetaRobots] + responseMiddleware + [ContentLength];
        assert responseMiddleware == ResponseBase(user);
        if clientScripts {
          var position := IndexOfMiddleware(responseMiddleware, UrlPrefixer) + 1;
          responseMiddleware := responseMiddleware[..position] + [ClientScriptsInjector] +
                                responseMiddleware[position..];
          assert responseMiddleware == Splice(ResponseBase(user), ClientScriptsInjector);
          assert responseMiddleware == ResponseChain(user, true);
        } else {
          assert responseMiddleware == ResponseChain(user, false);
        }
      }
    }
  }

  // ---------------------------------------------------------------------------------------------
  // The request, this host, this site
  // ---------------------------------------------------------------------------------------------

  /** The parts of the incoming request the core reads. */
  datatype Request = Request(url: string, headers: map<string, string>, protocol: Option<string>,
                             encrypted: bool)

  function Header(req: Request, name: string): Option<string> {
    if name in req.headers then Some(req.headers[name]) else None
  }

  /** `thisHost`: the configured host when set, otherwise the Host header (possibly absent). */
  function ThisHost(configHost: Option<string>, req: Request): (r: Option<string>)
    ensures Truthy(configHost) ==> r == configHost
    ensures !Truthy(configHost) ==> r == Header(req, "host")
  {
    if Truthy(configHost) then configHost else Header(req, "host")
  }

  /** How JavaScript concatenates a possibly undefined string. */
  function Shown(x: Option<string>): string {
    if x.Some? then x.value else "undefined"
  }

  /** The scheme of this site: Express's `request.protocol`, then the X-Forwarded-Protocol header,
      then "https" exactly when the connection is encrypted. */
  function Protocol(req: Request): (r: string)
    ensures r != []
    ensures Truthy(req.protocol) ==> r == req.protocol.value
    ensures !Truthy(req.protocol) && Truthy(Header(req, "X-Forwarded-Protocol")) ==>
      r == Header(req, "X-Forwarded-Protocol").value
    ensures !Truthy(req.protocol) && !Truthy(Header(req, "X-Forwarded-Protocol")) ==>
      (r == "https" <==> req.encrypted) && (r == "http" <==> !req.encrypted)
  {
    if Truthy(req.protocol) then req.protocol.value
    else if Truthy(Header(req, "X-Forwarded-Protocol")) then Header(req, "X-Forwarded-Protocol").value
    else if req.encrypted then "https" else "http"
  }

  /** `thisSite`: scheme, "://", this host and the prefix. */
  function ThisSite(configHost: Option<string>, prefix: string, req: Request): (r: string)
    ensures EndsWith(r, prefix)
    ensures StartsWith(r, Protocol(req) + "://" + Shown(ThisHost(configHost, req)))
    ensures r == Protocol(req) + "://" + Shown(ThisHost(configHost, req)) + prefix
  {
    var head := Protocol(req) + "://" + Shown(ThisHost(configHost, req));
    assert (head + prefix)[..|head|] == head;
    head + prefix
  }

  // ---------------------------------------------------------------------------------------------
  // recoverTargetUrl
  // ---------------------------------------------------------------------------------------------

  /** The fields of a legacy `url.parse` result that are read; either may be null. */
  datatype LegacyUrl = LegacyUrl(host: Option<string>, pathname: Option<string>)

  /** `url.parse(text)`, which always returns an object. */
  type LegacyParser = string -> LegacyUrl

  /** A result that may instead be a thrown exception. */
  datatype Outcome<T> = Threw | Returned(value: T)

  /** `recoverTargetUrl`. `getRealUrl` is the repair-and-parse of get-real-url.js (None for null);
      `parseAbsolute` is `new URL(text)` without a base. A null referer pathname makes
      `indexOf` throw. */
  function RecoverTargetUrl(prefix: string, configHost: Option<string>, req: Request,
                            parseLegacy: LegacyParser, getRealUrl: string -> Option<string>,
                            parseAbsolute: UrlParser): (r: Outcome<Option<string>>)
    // a request under the prefix names its own target: nothing for the bare prefix, otherwise
    // "http://" and the rest of the path
    ensures StartsWith(req.url, prefix) ==>
      r == Returned(if req.url == prefix then None else Some("http://" + req.url[|prefix|..]))
    // any other recovered target comes from a same-host referer whose path is a proxied URL
    ensures r.Returned? && r.value.Some? && !StartsWith(req.url, prefix) ==>
      Truthy(Header(req, "referer")) &&
      var ref := parseLegacy(Header(req, "referer").value);
      ref.host == ThisHost(configHost, req) && ref.pathname.Some? &&
      StartsWith(ref.pathname.value, prefix + "http") &&
      getRealUrl(ref.pathname.value).Some? && parseAbsolute(getRealUrl(ref.pathname.value).value).Some?
    // only a same-host referer without a path throws
    ensures r.Threw? ==>
      !StartsWith(req.url, prefix) && Truthy(Header(req, "referer")) &&
      var ref := parseLegacy(Header(req, "referer").value);
      ref.host == ThisHost(configHost, req) && ref.pathname.None?
  {
    if StartsWith(req.url, prefix) then
      if req.url == prefix || (|prefix| > 0 && req.url == prefix[..|prefix| - 1]) then Returned(None)
      else Returned(Some("http://" + req.url[|prefix|..]))
    else if !Truthy(Header(req, "referer")) then Returned(None)
    else
      var ref := parseLegacy(Header(req, "referer").value);
      if ref.host != ThisHost(configHost, req) then Returned(None)
      else if ref.pathname.None? then Threw
      else if StartsWith(ref.pathname.value, prefix + "http") then
        match getRealUrl(ref.pathname.value)
        case None => Returned(None)
        case Some(resolved) =>
          match parseAbsolute(resolved)
          case None => Returned(None)
          case Some(u) => Returned(Some(u.protocol + "//" + u.host + req.url))
      else Returned(None)
  }

  /** The referer case: the scheme and host of the referer's resolved target, then the request path. */
  lemma RecoverFromReferer(prefix: string, configHost: Option<string>, req: Request,
                           parseLegacy: LegacyParser, getRealUrl: string -> Option<string>,
                           parseAbsolute: UrlParser, path: string, resolved: string, target: Url)
    requires !StartsWith(req.url, prefix) && Truthy(Header(req, "referer"))
    requires parseLegacy(Header(req, "referer").value) == LegacyUrl(ThisHost(configHost, req), Some(path))
    requires StartsWith(path, prefix + "http")
    requires getRealUrl(path) == Some(resolved) && parseAbsolute(resolved) == Some(target)
    ensures RecoverTargetUrl(prefix, configHost, req, parseLegacy, getRealUrl, parseAbsolute) ==
      Returned(Some(target.protocol + "//" + target.host + req.url))
  {
  }

  /** The `getRealUrl` of lib/get-real-url.js as the function these operations take: the result
      of `RealUrl.Resolver.GetRealUrl`, whose memo table records results and changes none. */
  function GetRealUrlOf(prefix: string, parse: UrlParser): (f: string -> Option<string>)
    ensures forall s :: f(s) == RealUrl.RealUrlOf(prefix, parse, s)
  {
    s => RealUrl.RealUrlOf(prefix, parse, s)
  }

  /** With that `getRealUrl`, a referer path under a prefix that starts with '/' reaches the parser
      as it is: neither repair applies, so `new URL(path, "http://example.com")` resolves the path
      on the fallback host instead of reading the proxied URL out of it. */
  lemma ProxiedPathParsedAsIs(prefix: string, parse: UrlParser, path: string)
    requires prefix != [] && prefix[0] == '/' && StartsWith(path, prefix)
    ensures GetRealUrlOf(prefix, parse)(path) ==
      if parse(path).Some? then Some(parse(path).value.href) else None
  {
    assert path[0] == path[..|prefix|][0];
  }

  // ---------------------------------------------------------------------------------------------
  // redirectTo
  // ---------------------------------------------------------------------------------------------

  /** What `redirectTo` appends to `thisSite()` as written: one leading '/' is dropped, then the
      prefix is dropped if the text still starts with it. */
  function RedirectPathAsWritten(prefix: string, site: string): (r: string)
    ensures EndsWith(site, r)
    ensures |r| in {|site|, |site| - 1, |site| - |prefix|, |site| - |prefix| - 1}
    ensures !(|site| > 0 && site[0] == '/') && !StartsWith(site, prefix) ==> r == site
  {
    var s := if |site| > 0 && site[0] == '/' then site[1..] else site;
    if StartsWith(s, prefix) then s[|prefix|..] else s
  }

  /** Since the slash goes first, a prefix that starts with '/' survives: the guard against
      "/proxy/proxy" locations never fires for a site written as the prefix and a target. */
  lemma RedirectKeepsPrefix(prefix: string, target: string)
    requires |prefix| >= 2 && prefix[0] == '/' && prefix[1] != '/'
    ensures RedirectPathAsWritten(prefix, prefix + target) == prefix[1..] + target
  {
    var s := (prefix + target)[1..];
    assert s == prefix[1..] + target;
    assert s[0] == prefix[1];
  }

  /** The guard as intended: a leading prefix goes, otherwise one leading '/'. */
  function RedirectPath(prefix: string, site: string): (r: string)
    ensures StartsWith(site, prefix) ==> r == site[|prefix|..]
    ensures !StartsWith(site, prefix) && |site| > 0 && site[0] == '/' ==> r == site[1..]
    ensures !StartsWith(site, prefix) && !(|site| > 0 && site[0] == '/') ==> r == site
  {
    if StartsWith(site, prefix) then site[|prefix|..]
    else if |site| > 0 && site[0] == '/' then site[1..]
    else site
  }

  /** With the intended guard, a site under the prefix redirects to this site plus its target,
      so the prefix appears once; the two agree on every site that does not start with '/'. */
  lemma RedirectPathIntended(prefix: string, site: string, target: string)
    ensures RedirectPath(prefix, prefix + target) == target
    ensures !(|site| > 0 && site[0] == '/') && (prefix == [] || prefix[0] == '/') ==>
      RedirectPath(prefix, site) == RedirectPathAsWritten(prefix, site)
  {
    assert (prefix + target)[..|prefix|] == prefix;
    assert (prefix + target)[|prefix|..] == target;
    if !(|site| > 0 && site[0] == '/') && prefix != [] && prefix[0] == '/' {
      if |prefix| <= |site| {
        assert site[..|prefix|][0] == site[0];
      }
    }
  }

  /** The headers `_.defaults(headers || {}, { Location })` builds: the caller's Location wins. */
  function RedirectHeaders(headers: Option<map<string, string>>, location: string): (hs: map<string, string>)
    ensures "Location" in hs
    ensures headers.Some? && "Location" in headers.value ==> hs == headers.value
    ensures !(headers.Some? && "Location" in headers.value) ==> hs["Location"] == location
    ensures headers.Some? ==> forall k :: k in headers.value ==> k in hs && hs[k] == headers.value[k]
  {
    var given := if headers.Some? then headers.value else map[];
    if "Location" in given then given else given["Location" := location]
  }

  /** `redirectTo`: a 307 to this site plus the site's path (with the guard as written), then
      `end()` in every case, including when `writeHead` throws because the head was already sent. */
  method RedirectTo(prefix: string, thisSite: string, response: ClientResponse, site: Option<string>,
                    headers: Option<map<string, string>>)
    modifies response
    ensures response.ended
    ensures var location := thisSite + RedirectPathAsWritten(prefix, OrEmpty(site));
      if old(response.status) == 0 && !old(response.ended) then
        response.status == 307 && response.headers == RedirectHeaders(headers, location) &&
        response.body == old(response.body)
      else
        response.status == old(response.status) && response.headers == old(response.headers) &&
        response.body == old(response.body)
  {
    var path := RedirectPathAsWritten(prefix, OrEmpty(site));
    var location := thisSite + path;
    var thrown := response.WriteHead(307, RedirectHeaders(headers, location));
    response.End("");
  }

  // ---------------------------------------------------------------------------------------------
  // initData and the decisions of handleRequest and onUpgrade
  // ---------------------------------------------------------------------------------------------

  /** `clientRequest.url.substr(prefix.length)`. */
  function RawUrl(url: string, prefix: string): (r: string)
    ensures StartsWith(url, prefix) ==> prefix + r == url
    ensures |url| >= |prefix| ==> |r| == |url| - |prefix| && EndsWith(url, r)
    ensures |url| < |prefix| ==> r == []
  {
    if |prefix| <= |url| then url[|prefix|..] else ""
  }

  /** The two fields of `data` the decision reads. */
  datatype Data = Data(formatted: Option<string>, rawUrl: string)

  /** `initData`. `normalize` is `url.format(url.parse(text))`. A null `pathname` or a null result of
      `getRealUrl` handed to `url.parse` throws. */
  function InitData(prefix: string, configHost: Option<string>, req: Request, parseLegacy: LegacyParser,
                    getRealUrl: string -> Option<string>, parseAbsolute: UrlParser,
                    normalize: string -> string): (r: Outcome<Data>)
    ensures r.Returned? ==> r.value.rawUrl == RawUrl(req.url, prefix)
    // a proxied path is resolved by `getRealUrl` and throws when that gives null
    ensures parseLegacy(req.url).pathname.Some? && StartsWith(parseLegacy(req.url).pathname.value, prefix + "http") ==>
      if getRealUrl(req.url).None? then r.Threw?
      else r.Returned? && r.value.formatted == Some(normalize(getRealUrl(req.url).value))
    // any other path takes the recovered target, when there is one
    ensures parseLegacy(req.url).pathname.Some? && !StartsWith(parseLegacy(req.url).pathname.value, prefix + "http") ==>
      var t := RecoverTargetUrl(prefix, configHost, req, parseLegacy, getRealUrl, parseAbsolute);
      (r.Threw? <==> t.Threw?) &&
      (t.Returned? ==> r.value.formatted == if Truthy(t.value) then Some(normalize(t.value.value)) else None)
    ensures parseLegacy(req.url).pathname.None? ==> r.Threw?
  {
    var raw := RawUrl(req.url, prefix);
    var path := parseLegacy(req.url).pathname;
    if path.None? then Threw
    else if StartsWith(path.value, prefix + "http") then
      match getRealUrl(req.url)
      case None => Threw
      case Some(resolved) => Returned(Data(Some(normalize(resolved)), raw))
    else
      match RecoverTargetUrl(prefix, configHost, req, parseLegacy, getRealUrl, parseAbsolute)
      case Threw => Threw
      case Returned(target) =>
        Returned(Data(if Truthy(target) then Some(normalize(target.value)) else None, raw))
  }

  datatype Decision = Redirect(location: string) | Proxy(url: string) | Next

  /** The branch `handleRequest` takes. */
  function Decide(d: Data): (r: Decision)
    ensures r.Redirect? ==> Truthy(d.formatted) && r.location == d.formatted.value
    ensures r.Proxy? ==> Truthy(d.formatted) && r.url == d.formatted.value
    ensures r.Next? <==> !Truthy(d.formatted)
  {
    if Truthy(d.formatted) then
      var f := d.formatted.value;
      if f != d.rawUrl && ReplaceFirst(f, "://", ":/") != d.rawUrl then Redirect(f) else Proxy(f)
    else Next
  }

  /** A raw path that is the target, or the target with the slashes of "://" merged by a router,
      is proxied; any other raw path is redirected to the target. */
  lemma DecideRedirectsIff(d: Data)
    requires Truthy(d.formatted)
    ensures Decide(d).Proxy? <==>
      d.rawUrl == d.formatted.value || d.rawUrl == ReplaceFirst(d.formatted.value, "://", ":/")
    ensures Decide(d).Redirect? <==> !Decide(d).Proxy?
  {
  }

  /** A router that merged the slashes of the target does not cause a redirect loop. */
  lemma MergedSlashesProxied(target: string)
    requires target != []
    ensures Decide(Data(Some(target), ReplaceFirst(target, "://", ":/"))) == Proxy(target)
  {
  }

  /** What `handleRequest` did with the request. */
  datatype Handled = Redirected | Proxied(url: string) | PassedOn | Failed | Thrown

  /** `handleRequest`. The proxying itself is outside this model; `hasNext` says whether the caller
      gave a `next`, without which a 400 "Unable to process request" is written. */
  method HandleRequest(prefix: string, configHost: Option<string>, req: Request, response: ClientResponse,
                       hasNext: bool, parseLegacy: LegacyParser, getRealUrl: string -> Option<string>,
                       parseAbsolute: UrlParser, normalize: string -> string)
    returns (h: Handled)
    modifies response
    ensures var d := InitData(prefix, configHost, req, parseLegacy, getRealUrl, parseAbsolute, normalize);
      (d.Threw? ==> h == Thrown && unchanged(response)) &&
      (d.Returned? && Decide(d.value).Redirect? ==>
        h == Redirected && response.ended && response.body == old(response.body) &&
        if old(response.status) == 0 && !old(response.ended) then
          response.status == 307 &&
          response.headers == RedirectHeaders(None, ThisSite(configHost, prefix, req) +
                                              RedirectPathAsWritten(prefix, Decide(d.value).location))
        else
          response.status == old(response.status) && response.headers == old(response.headers)) &&
      (d.Returned? && Decide(d.value).Proxy? ==> h == Proxied(d.value.formatted.value) && unchanged(response)) &&
      (d.Returned? && Decide(d.value).Next? && hasNext ==> h == PassedOn && unchanged(response)) &&
      (d.Returned? && Decide(d.value).Next? && !hasNext ==>
        if old(response.status) == 0 && !old(response.ended) then
          h == Failed && response.status == 400 && response.headers == map[] && response.ended &&
          response.body == old(response.body) + "Unable to process request"
        else
          (h == Thrown && response.status == old(response.status) && response.ended == old(response.ended) &&
           response.headers == old(response.headers) && response.body == old(response.body)))
  {
    var d := InitData(prefix, configHost, req, parseLegacy, getRealUrl, parseAbsolute, normalize);
    if d.Threw? {
      return Thrown;
    }
    match Decide(d.value)
    case Redirect(location) =>
      RedirectTo(prefix, ThisSite(configHost, prefix, req), response, Some(location), None);
      h := Redirected;
    case Proxy(url) =>
      h := Proxied(url);
    case Next =>
      if hasNext {
        h := PassedOn;
      } else {
        var thrown := response.WriteHead(400, map[]);
        if thrown {
          return Thrown;
        }
        response.End("Unable to process request");
        h := Failed;
      }
  }

  /** The reply `onUpgrade` writes on the socket: none when the upgrade is proxied, otherwise a
      bare 400 status line. */
  function UpgradeReply(d: Data): (r: Option<string>)
    ensures r.None? <==> Truthy(d.formatted)
    ensures r.Some? ==> r.value == "HTTP/1.1 400 Bad Request\r\n\r\n"
  {
    if Truthy(d.formatted) then None else Some("HTTP/1.1 400 Bad Request\r\n\r\n")
  }
}
