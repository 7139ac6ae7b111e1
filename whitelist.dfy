/** The whitelist example middleware (examples/whitelist/whitelist.js): a request is let through
    only when its host name is one of the allowed domains or a subdomain of one. */
module Whitelist {
  import opened Common

  /** `hostname === allowedDomain || hostname.endsWith("." + allowedDomain)`. */
  predicate Covers(allowedDomain: string, hostname: string)
    // the domain is the whole host name or its last labels, cut at a '.'
    ensures Covers(allowedDomain, hostname) <==>
      (EndsWith(hostname, allowedDomain) &&
       (|hostname| == |allowedDomain| || hostname[|hostname| - |allowedDomain| - 1] == '.'))
  {
    hostname == allowedDomain || EndsWith(hostname, "." + allowedDomain)
  }

  /** `allowedDomains.some(...)`, tried left to right. */
  function AnyCovers(allowedDomains: seq<string>, hostname: string): (r: bool)
    ensures r <==> exists k :: 0 <= k < |allowedDomains| && Covers(allowedDomains[k], hostname)
  {
    if allowedDomains == [] then false
    else Covers(allowedDomains[0], hostname) || AnyCovers(allowedDomains[1..], hostname)
  }

  /** `isRequestAllowed`: a URL that does not parse is refused. */
  function IsRequestAllowed(allowedDomains: seq<string>, url: string, parse: UrlParser): (r: bool)
    ensures r <==> (parse(url).Some? &&
      exists k :: 0 <= k < |allowedDomains| && Covers(allowedDomains[k], parse(url).value.hostname))
  {
    match parse(url)
    case None => false
    case Some(u) => AnyCovers(allowedDomains, u.hostname)
  }

  /** A subdomain of an allowed domain, at any depth, is allowed. */
  lemma SubdomainCovered(allowedDomain: string, sub: string)
    ensures Covers(allowedDomain, sub + "." + allowedDomain)
  {
    var h := sub + "." + allowedDomain;
    assert h[|h| - |"." + allowedDomain|..] == "." + allowedDomain;
  }

  /** The match is on a label boundary: a host name that only ends in the domain's letters, such
      as "notexample.com" for "example.com", is not covered. */
  lemma OnlyWholeLabels(allowedDomain: string, stem: string)
    requires stem != [] && stem[|stem| - 1] != '.'
    ensures !Covers(allowedDomain, stem + allowedDomain)
  {
    var h := stem + allowedDomain;
    var i := |stem| - 1;
    assert |h| - |"." + allowedDomain| == i;
    assert h[i..] != "." + allowedDomain by { assert h[i..][0] == stem[i]; }
  }

  /** Adding domains to the list never refuses a request that was allowed before. */
  lemma MoreDomainsAllowMore(allowedDomains: seq<string>, extra: seq<string>, url: string, parse: UrlParser)
    requires IsRequestAllowed(allowedDomains, url, parse)
    ensures IsRequestAllowed(allowedDomains + extra, url, parse)
  {
    var k :| 0 <= k < |allowedDomains| && Covers(allowedDomains[k], parse(url).value.hostname);
    assert (allowedDomains + extra)[k] == allowedDomains[k];
  }

  /** `checkWhitelist`: a refused request gets a 400 response carrying the configured message;
      an allowed one is left alone for the next middleware. Express's own headers are not
      modelled, and `send` on a response already sent throws. */
  method CheckWhitelist(allowedDomains: seq<string>, message: string, url: string, parse: UrlParser,
                        response: ClientResponse) returns (thrown: bool)
    modifies response
    ensures IsRequestAllowed(allowedDomains, url, parse) ==>
      !thrown && response.status == old(response.status) && response.headers == old(response.headers) &&
      response.body == old(response.body) && response.ended == old(response.ended)
    ensures !IsRequestAllowed(allowedDomains, url, parse) ==>
      thrown == (old(response.status) != 0 || old(response.ended))
    ensures !IsRequestAllowed(allowedDomains, url, parse) && !thrown ==>
      response.status == 400 && response.body == old(response.body) + message && response.ended
    ensures thrown ==>
      response.status == old(response.status) && response.body == old(response.body) &&
      response.ended == old(response.ended)
  {
    thrown := false;
    if !IsRequestAllowed(allowedDomains, url, parse) {
      thrown := response.WriteHead(400, map[]);
      if !thrown {
        response.End(message);
      }
    }
  }
}
