/** The blacklist example (examples/blacklist/blacklist.js): a request whose host name is exactly
    one of a fixed list is reported as blacklisted. */
module Blacklist {
  import opened Common

  /** What the name `URL` is bound to where the file calls `new URL(...)`: the WHATWG URL class,
      or the exports object of the `url` module, which is not a constructor. */
  datatype UrlBinding = UrlClass | UrlModule

  /** `new URL(text, "http://example.com")` under a binding; None where it throws. */
  function Construct(binding: UrlBinding, text: string, parse: UrlParser): (r: Option<Url>)
    ensures binding == UrlModule ==> r.None?
    ensures binding == UrlClass ==> r == parse(text)
  {
    match binding
    case UrlModule => None
    case UrlClass => parse(text)
  }

  const BlacklistedHosts: seq<string> := ["example.com", "malicious.com"]

  /** The body of `isBlacklisted`: a failed construction is caught and reports false. */
  function IsBlacklistedWith(binding: UrlBinding, url: string, parse: UrlParser): (r: bool)
    ensures r <==> (Construct(binding, url, parse).Some? &&
                    Construct(binding, url, parse).value.hostname in {"example.com", "malicious.com"})
  {
    match Construct(binding, url, parse)
    case None => false
    case Some(u) => u.hostname in BlacklistedHosts
  }

  /** The file as written: `URL` is `require("url")`, so the construction always throws and no
      request is ever reported. */
  function IsBlacklistedAsWritten(url: string, parse: UrlParser): (r: bool)
    ensures !r
  {
    IsBlacklistedWith(UrlModule, url, parse)
  }

  /** With the URL class, as intended: exactly the listed host names are reported, and a URL that
      does not parse is not. */
  function IsBlacklisted(url: string, parse: UrlParser): (r: bool)
    ensures r <==> (parse(url).Some? &&
      (parse(url).value.hostname == "example.com" || parse(url).value.hostname == "malicious.com"))
  {
    IsBlacklistedWith(UrlClass, url, parse)
  }

  /** A request for a listed host shows the two apart: the intended check reports it, the file as
      written lets it through. */
  lemma ListedHostSlipsThrough(url: string, parse: UrlParser)
    requires parse(url).Some? && parse(url).value.hostname == "malicious.com"
    ensures IsBlacklisted(url, parse) && !IsBlacklistedAsWritten(url, parse)
  {
  }

  /** The match is exact, unlike the whitelist's: a subdomain of a listed host is not reported. */
  lemma SubdomainNotListed(url: string, parse: UrlParser, sub: string)
    requires parse(url).Some? && parse(url).value.hostname == sub + ".example.com"
    ensures !IsBlacklisted(url, parse)
  {
    var h := sub + ".example.com";
    assert |h| > |"example.com"|;
    assert h != "malicious.com" by {
      assert h[|h| - 1] == 'm';
      if |h| == 13 {
        assert h[|sub|..] == ".example.com";
        assert h[|h| - 12] == '.';
      }
    }
  }
}
