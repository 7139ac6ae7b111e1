/** lib/referer.js: a referer that points into the proxy ("/proxy/https://site/page") is turned
    back into the target page it stands for before the request leaves for the target site. */
module Referer {
  import opened Common

  /** The referer the target site should see, or None when the header is to stay as it is: it
      is absent or empty, it does not parse, or its path does not start with the prefix. Only the
      path of the parsed referer is kept, so its query and fragment are dropped. */
  function Rewritten(referer: Option<string>, prefix: string, parse: UrlParser): (r: Option<string>)
    ensures r.Some? <==> (Truthy(referer) && parse(referer.value).Some? &&
                          StartsWith(parse(referer.value).value.pathname, prefix))
    ensures r.Some? ==> prefix + r.value == parse(referer.value).value.pathname
  {
    if !Truthy(referer) then None
    else match parse(referer.value)
      case None => None
      case Some(uri) =>
        if StartsWith(uri.pathname, prefix) then Some(uri.pathname[|prefix|..]) else None
  }

  /** The request headers after `proxyReferer`. */
  function AfterReferer(headers: map<string, string>, prefix: string, parse: UrlParser): (r: map<string, string>)
    ensures forall h :: h != "referer" ==> (h in r <==> h in headers) && (h in r ==> r[h] == headers[h])
    ensures "referer" in headers <==> "referer" in r
    ensures r != headers ==>
      ("referer" in headers && parse(headers["referer"]).Some? &&
       var path := parse(headers["referer"]).value.pathname;
       StartsWith(path, prefix) && r["referer"] == path[|prefix|..])
  {
    var referer := if "referer" in headers then Some(headers["referer"]) else None;
    match Rewritten(referer, prefix, parse)
    case None => headers
    case Some(ref) => headers["referer" := ref]
  }

  /** The request being proxied, whose header map the middleware updates. */
  class RequestData {
    var headers: map<string, string>

    constructor (headers: map<string, string>)
      ensures this.headers == headers
    {
      this.headers := headers;
    }

    /** `proxyReferer`: a parse failure is caught and leaves the header alone. */
    method ProxyReferer(prefix: string, parse: UrlParser)
      modifies this
      ensures headers == AfterReferer(old(headers), prefix, parse)
    {
      if "referer" in headers && headers["referer"] != "" {
        var uri := parse(headers["referer"]);
        if uri.Some? && |prefix| <= |uri.value.pathname| && uri.value.pathname[..|prefix|] == prefix {
          headers := headers["referer" := uri.value.pathname[|prefix|..]];
        }
      }
    }
  }

  /** A referer whose path is the prefix followed by a target gives exactly that target. */
  lemma RefererUnwrapped(headers: map<string, string>, prefix: string, parse: UrlParser, target: string)
    requires "referer" in headers && headers["referer"] != ""
    requires parse(headers["referer"]).Some? && parse(headers["referer"]).value.pathname == prefix + target
    ensures AfterReferer(headers, prefix, parse) == headers["referer" := target]
  {
    var p := prefix + target;
    assert p[..|prefix|] == prefix && p[|prefix|..] == target;
  }
}
