# node-unblocker: the URL-cloaking core in Dafny

node-unblocker is a web proxy. It lets a browser visit any site through one origin by putting
each target URL behind a path prefix (`/proxy/https://site/page`). This project models the part
that keeps that disguise consistent, and proves properties of the model.

- **URL prefixer** (`lib/url-prefixer.js`). A streaming rewrite of HTML and CSS bodies:
  - it puts the prefix in front of every absolute `http:`/`https:` URL that follows a quote, `=`
    or `url(`;
  - it records a token for each match in a process-wide cloak table;
  - it takes the prefix off namespace declarations and the first DOCTYPE again;
  - it holds back a possibly split last word of each chunk for the next one;
  - it inserts a click-handler script before the first `</body>`.
- **Path repair** (`lib/get-real-url.js`). This puts back a slash that a router merged away. It
  also collapses a scheme-and-prefix written twice. The repaired text is then parsed, and the
  result is remembered.
- **Routing** (`lib/unblocker.js`):
  - prefix normalisation;
  - the request and response middleware chains;
  - recovering a target from the referer;
  - the `Location` of the 307 redirect;
  - the choice to redirect, proxy or pass the request on.
- **Cookie scoping** (`lib/cookies.js`). Each cookie of a target site is moved under the prefix
  plus an eight-hex-digit token of the site's origin. Under section 5.1.4 of RFC 6265, cookies
  scoped under different tokens therefore never go out with the same request.
- **Referer rewrite** (`lib/referer.js`). A proxied referer is turned back into the page it
  stands for.
- **Host filters** (`examples/whitelist/whitelist.js`, `examples/blacklist/blacklist.js`).

Regular expressions are modelled by hand with JavaScript's matching order: leftmost match,
greedy quantifiers backing off, global or first-only replace, and ASCII case folding for the
`i` flag. Two things are function parameters: URL parsing (`new URL(text, base)`, which may
throw) and the SHA-256 token.

Four decisions shape the model:

- The cloaking token is a `Cloaking` mode:
  - `AsWritten` looks the original text up in a table keyed by hashes, as line 49 does. It
    always misses and writes "undefined".
  - `Literal` keeps the scheme, as the header comment of the file describes.

  Every structural property is proved for both modes. The properties that concern the text the
  prefixer produces are proved for `Literal` (see Findings).
- Stateful code is written as classes whose methods update fields: the cloak table, the stream's
  `chunk_remainder`, the `getRealUrl` memo, the configuration, cookies, request headers and the
  Node response.
- The calls in `lib/unblocker.js` have two call-shape mismatches:
  - `getRealUrl` is imported as an object but called as a function;
  - `cookies(config)` and its `handleRequest`/`handleResponse` are never exported.

  The model uses the intended shapes: `getRealUrl` is a function parameter and middleware are
  identities in a sequence.
- Two descriptions of the design do not match the code, and the model follows the code:
  - A path with the prefix written twice in a row (`/proxy/proxy/http://x`) is not collapsed. The
    double-prefix pattern requires a scheme before the first prefix.
  - Stream output is not independent of where chunks are split. Only a trailing
    "white space + word" (or `url(` + white space + word) is held back. So a chunk without white
    space, such as `="ht` followed by `tp:…`, is rewritten before the rest of the match arrives.

## Model

| member | source | states |
|---|---|---|
| Common.ClientResponse.WriteHead | lib/unblocker.js:195-205 | `writeHead` throws, changing nothing, once the head was sent or the response ended; otherwise it sets status and headers |
| Common.ClientResponse.End | lib/unblocker.js:206 | `end` appends its text only to a response not yet ended, and marks it ended |
| Common.ReplaceFirst | lib/url-prefixer.js:84-98 | `replace` with a string pattern replaces only the first occurrence and keeps the text around it |
| UrlPrefixer.SpaceRun | lib/url-prefixer.js:25 | `\s*` takes the maximal run of white space |
| UrlPrefixer.DelimLen | lib/url-prefixer.js:25 | the first group `("|'|=|url\(\s*)` at the start: a positive length is a delimiter, `url(` takes all the white space after it (a shorter delimiter stops before white space), and 0 means no delimiter starts there |
| UrlPrefixer.SchemeLen | lib/url-prefixer.js:25 | `(https?:)` at an index: a positive length is a scheme, 6 exactly when `https:` fits (the greedy `s?` wins), and 0 exactly when neither `http:` nor `https:` fits, in any letter case |
| UrlPrefixer.AbsMatch | lib/url-prefixer.js:25 | a match at index 0 is a delimiter followed by a scheme; None means no delimiter at index 0 is followed by a scheme |
| UrlPrefixer.Scan | lib/url-prefixer.js:25-43 | the global scan yields only matches made of a delimiter and a scheme |
| UrlPrefixer.ScanLossless | lib/url-prefixer.js:43-50 | the scan loses nothing: stepped-over characters and matches spell the input |
| UrlPrefixer.Record | lib/url-prefixer.js:45-48 | a new original text is stored under its hash; a text already present as a key leaves the table as it is; the table only grows, and no other key changes |
| UrlPrefixer.Apply | lib/url-prefixer.js:43-50 | the callback keeps the table consistent (key = hash of value) and growing, and records a token for every match |
| UrlPrefixer.NotAToken | lib/url-prefixer.js:45-49 | an original text `delim+scheme` is never a key of a consistent table, so the `has`/`get` lookups miss |
| UrlPrefixer.ApplyText | lib/url-prefixer.js:49 | the text written is delimiter + prefix + (scheme under `Literal`, "undefined" as written), and text outside matches is unchanged |
| UrlPrefixer.Emitted | lib/url-prefixer.js:49 | under `Literal` the matched scheme; as written, the table's value for the original text, or "undefined" when it has none (which `NotAToken` shows is always) |
| UrlPrefixer.CloakUrls | lib/url-prefixer.js:22-50 | the first pass renders its scan (scheme kept, or "undefined" as written); its table only grows, keeps keys equal to the hash of their value, and holds a token for every match |
| UrlPrefixer.PassiveRun | lib/url-prefixer.js:43-50 | characters that cannot start a match are copied through unchanged |
| UrlPrefixer.CloakedIsInert | lib/url-prefixer.js:25-50 | after a `Literal` pass with a prefix ending in '/', no match is left anywhere in the text |
| UrlPrefixer.InertUnchanged | lib/url-prefixer.js:43-50 | over text without a match, the pass changes neither the text nor the table |
| UrlPrefixer.SecondPassAddsNothing | lib/url-prefixer.js:25-50 | a second `Literal` pass over cloaked text adds no second prefix and records nothing |
| UrlPrefixer.QuotedAttribute | lib/url-prefixer.js:43-50 | `name="http:rest">` becomes `name="` + prefix + (scheme, or "undefined" as written) + `rest">` |
| UrlPrefixer.HeaderExample | lib/url-prefixer.js:7-10 | first pass: `<a href="http://example.com/">` becomes `<a href="/proxy/http://example.com/">` under `Literal` and `<a href="/proxy/undefined//example.com/">` as written |
| UrlPrefixer.HeaderRewritten | lib/url-prefixer.js:36-57 | the same example through all three passes of `rewriteUrls`: under `Literal` `<a href="/proxy/http://example.com/">`, as written `<a href="/proxy/undefined//example.com/">` |
| UrlPrefixer.QuietHasNoMarker | lib/url-prefixer.js:33-34 | text in which no neighbouring pair could begin "xmlns" or "<!DOCTYPE" holds neither match |
| UrlPrefixer.NoDoctypeMatchKept | lib/url-prefixer.js:54 | text in which no "<!DOCTYPE" starts, in any letter case, is kept by the DOCTYPE pass |
| UrlPrefixer.LetterRun | lib/url-prefixer.js:33 | `[a-z]+` under the `i` flag takes the maximal run of ASCII letters |
| UrlPrefixer.XmlnsDeclLen | lib/url-prefixer.js:33 | a positive length is a namespace group `xmlns(:[a-z]+)?="` (at least one letter after a colon), and it is the only declaration that starts at index 0; 0 means none does |
| UrlPrefixer.XmlnsScan | lib/url-prefixer.js:33 | every removal is a namespace declaration directly followed by the prefix in any letter case (the converse is `DeclUnprefixed` with `KeptBefore`) |
| UrlPrefixer.XmlnsScanLossless | lib/url-prefixer.js:53 | the namespace pass scans exactly its input and only drops the prefixes |
| UrlPrefixer.NoDeclKept | lib/url-prefixer.js:53 | text in which no "xmlns" starts, in any letter case, is kept by the namespace pass |
| UrlPrefixer.DeclUnprefixed | lib/url-prefixer.js:33-53 | every declaration `xmlns="` or `xmlns:name="`, in any letter case, directly followed by the prefix in any letter case loses the prefix, and the pass goes on after it |
| UrlPrefixer.KeptBefore | lib/url-prefixer.js:33-53 | text in front in which no "xmlns" starts comes through unchanged, and the pass treats the rest as if that text were absent |
| UrlPrefixer.StripXmlns | lib/url-prefixer.js:53 | the result is never longer than the text; that the pass only deletes the prefix after each declaration is stated by `XmlnsScanLossless`, `DeclUnprefixed`, `KeptBefore` and `NoDeclKept` |
| UrlPrefixer.NonGtRun | lib/url-prefixer.js:34 | `[^>]+` stops at the first '>' |
| UrlPrefixer.LastQuote | lib/url-prefixer.js:34 | the greedy `[^>]+"` ends at the last quote followed by the prefix |
| UrlPrefixer.DoctypeQuote | lib/url-prefixer.js:34 | the quote ending the group after `<!DOCTYPE` at an index: a found quote has no '>' before it and the prefix after it, and it is the last such quote; None means no quote fits |
| UrlPrefixer.FirstDoctype | lib/url-prefixer.js:34-54 | the leftmost DOCTYPE match is found and none starts before it |
| UrlPrefixer.StripDoctype | lib/url-prefixer.js:54 | only the first DOCTYPE match loses the prefix after its quote; the rest of the text is unchanged |
| UrlPrefixer.RewriteUrls | lib/url-prefixer.js:36-57 | the table is that of the first pass, grows and stays consistent, and the later passes only delete text; the text is stated by `NamespaceSurvives`, `HeaderRewritten` and `SecondPassAddsNothing` |
| UrlPrefixer.NoDoctypeKept | lib/url-prefixer.js:54 | text without '<' is kept by the DOCTYPE pass |
| UrlPrefixer.NamespaceSurvives | lib/url-prefixer.js:31-54 | a namespace URI `xmlns="http:…">` without quotes, `=`, `u`, `<` or a nested "xmlns" comes out of `rewriteUrls` exactly as it went in |
| UrlPrefixer.XhtmlNamespaceSurvives | lib/url-prefixer.js:32 | the XHTML namespace `xmlns="http://www.w3.org/1999/xhtml">` comes out of `rewriteUrls` unchanged |
| UrlPrefixer.WordRun | lib/url-prefixer.js:29 | `[^\s]+` takes the maximal run of non-space characters |
| UrlPrefixer.PartialFrom | lib/url-prefixer.js:29-73 | the partial pattern is found at the leftmost index from which it matches to the end |
| UrlPrefixer.PartialStart | lib/url-prefixer.js:29-74 | `chunk.match` finds the leftmost start of the partial tail, or there is none |
| UrlPrefixer.CutPartial | lib/url-prefixer.js:73-78 | the kept part and the held-back tail spell the chunk, and something is held back exactly when the pattern matches |
| UrlPrefixer.WithheldShape | lib/url-prefixer.js:28-77 | a held-back tail is white space + word + white space, or `url(` + white space + word |
| UrlPrefixer.TrailingWordWithheld | lib/url-prefixer.js:12-29 | a chunk ending in white space and a word always holds something back |
| UrlPrefixer.ClickScript | lib/url-prefixer.js:86-97 | the script starts with `<script>`, ends with the `</script></body>` it replaces, and holds the prefix right after the template's opening part and right after its middle part |
| UrlPrefixer.InjectClickHandler | lib/url-prefixer.js:83-98 | only the first `</body>` gets the script in front of it; the text before and after is unchanged |
| UrlPrefixer.CloakTable.constructor | lib/url-prefixer.js:22 | the module-level table starts empty |
| UrlPrefixer.CloakTable.Rewrite | lib/url-prefixer.js:36-57 | `rewriteUrls` returns the rewritten text and leaves the grown table in `urlMapping` |
| UrlPrefixer.PrefixStream.constructor | lib/url-prefixer.js:59-60 | a new stream has no remainder and injects the click-handler template of lines 86-97 |
| UrlPrefixer.PrefixStream.Transform | lib/url-prefixer.js:65-103 | the remainder is prepended, the partial tail is held back, the rest is rewritten with the click handler injected, and everything received is either handed on or held |
| UrlPrefixer.PrefixStream.Flush | lib/url-prefixer.js:105-111 | a remainder is rewritten and pushed, nothing is pushed without one, and the remainder ends empty |
| UrlPrefixer.Released | lib/url-prefixer.js:65-109 | a run of chunks hands exactly one text per chunk to `rewriteUrls` |
| UrlPrefixer.StreamLossless | lib/url-prefixer.js:66-109 | over any run of chunks, the texts handed to `rewriteUrls` followed by the final remainder are exactly the input, in order |
| UrlPrefixer.Prefixer.constructor | lib/url-prefixer.js:24 | a prefixer shares the one module-level table |
| UrlPrefixer.Prefixer.CreateStream | lib/url-prefixer.js:59-62 | a fresh stream with an empty remainder over the shared table |
| UrlPrefixer.Prefixer.PrefixUrls | lib/url-prefixer.js:115-127 | a stream is installed only when the response should be processed, and an unparsable URL throws; the installed stream is empty and carries the prefixer's prefix, cloaking mode, hash and table |
| RealUrl.MergedLen | lib/get-real-url.js:7 | 7 exactly when the text starts with `https:/` (any case) and a non-slash; 6 exactly when it starts with `http:/` and a non-slash; then the group ends in ":/" before that non-slash |
| RealUrl.Unmerge | lib/get-real-url.js:7-24 | the lost slash is inserted after `http:/` or `https:/`, and nothing else changes |
| RealUrl.UnmergeIdempotent | lib/get-real-url.js:7-24 | un-merging twice is un-merging once |
| RealUrl.UnmergeKeeps | lib/get-real-url.js:7-24 | text already starting with `scheme://`, or not with a scheme, is unchanged |
| RealUrl.OuterLen | lib/get-real-url.js:12 | 6 exactly when the text starts with `https:`, 5 exactly when it starts with `http:` (any case), 0 otherwise |
| RealUrl.Slashes | lib/get-real-url.js:11-14 | `/?/?` settles on the largest slash count (2, 1, then 0) after which the prefix and an inner scheme follow |
| RealUrl.Collapse | lib/get-real-url.js:11-26 | a double prefix is cut down to the inner `https?://` and the rest; otherwise the text is unchanged |
| RealUrl.Repair | lib/get-real-url.js:22-26 | un-merge, then collapse: the result is a suffix of the un-merged text that starts with the inner scheme when the double prefix was found, and is the un-merged text otherwise |
| RealUrl.RepairKeepsNonScheme | lib/get-real-url.js:7-12 | text not starting with 'h' in either case, such as a path under the prefix, is untouched by both repairs |
| RealUrl.RepairMergedDoublePrefix | lib/get-real-url.js:24-26 | `http:` + prefix + `http://rest` is repaired to `http://rest`, un-merging first and then collapsing |
| RealUrl.Resolver.constructor | lib/get-real-url.js:17 | the memo starts empty |
| RealUrl.RealUrlOf | lib/get-real-url.js:22-38 | the result is present exactly when the repaired text parses, and is then its serialised URL; text not starting with 'h' or 'H' is parsed unrepaired |
| RealUrl.Resolver.GetRealUrl | lib/get-real-url.js:22-38 | returns `RealUrlOf` of the text; a failed parse records nothing, otherwise the serialised URL is stored under the repaired text |
| Unblocker.NormalizePrefix | lib/unblocker.js:49-51 | the prefix ends in '/', and one is appended only when it was missing |
| Unblocker.NormalizePrefixIdempotent | lib/unblocker.js:49-51 | normalising twice is normalising once |
| Unblocker.IndexOfMiddleware | lib/unblocker.js:91 | `indexOf` gives the first index of the middleware, or -1 when it is absent |
| Unblocker.Splice | lib/unblocker.js:91-92 | the injector goes right after the first URL prefixer (at the front when there is none), and taking it out again gives back the chain |
| Unblocker.PrefixerAt | lib/unblocker.js:82-91 | the URL prefixer sits at index 6 of the response chain |
| Unblocker.RequestChain | lib/unblocker.js:68-73 | four built-ins, then the user's request middleware in order |
| Unblocker.ResponseBase | lib/unblocker.js:75-85 | nine built-ins ending in cookies and meta-robots, then the user's response middleware in order, then content length |
| Unblocker.ResponseChain | lib/unblocker.js:75-93 | with client scripts, the injector is inserted at index 7, right after the URL prefixer, and everything else keeps its place; without, the base chain |
| Unblocker.ResponseChainOrder | lib/unblocker.js:75-93 | the injector follows the URL prefixer, the user's middleware keep their order just before content length, and content length is last |
| Unblocker.Config.constructor | lib/unblocker.js:34-47 | a missing prefix defaults to "/proxy/" and the other settings are kept |
| Unblocker.Config.Setup | lib/unblocker.js:46-94 | the prefix is normalised, and with standard middleware both chains are built; otherwise they stay as given |
| Unblocker.ThisHost | lib/unblocker.js:166-172 | the configured host when it is set, else the Host header |
| Unblocker.Protocol | lib/unblocker.js:177-180 | `request.protocol` when set, else the X-Forwarded-Protocol header when set, else "https" exactly when the connection is encrypted |
| Unblocker.ThisSite | lib/unblocker.js:175-182 | exactly protocol + "://" + this host (or "undefined") + the prefix |
| Unblocker.RecoverTargetUrl | lib/unblocker.js:121-163 | a URL under the prefix gives null for the bare prefix and otherwise "http://" + the remainder; any other target comes only from a same-host referer whose path starts with the prefix + "http"; only such a referer without a path throws |
| Unblocker.RecoverFromReferer | lib/unblocker.js:146-159 | from such a referer, the target is `protocol//host` of the referer's resolved target + the request URL |
| Unblocker.GetRealUrlOf | lib/get-real-url.js:22-38 | the `getRealUrl` function handed to the request handling gives, for every text, what `RealUrl.Resolver.GetRealUrl` returns (`RealUrl.RealUrlOf`) |
| Unblocker.ProxiedPathParsedAsIs | lib/get-real-url.js:22-31 | with the `getRealUrl` of get-real-url.js, a path under a prefix starting with '/' reaches the URL parser unrepaired, so it is resolved against the fallback base |
| Unblocker.RedirectPathAsWritten | lib/unblocker.js:186-191 | the guard as written: the result is a suffix of the site, shorter by 0, 1, the prefix's length or one more; a site not starting with '/' or the prefix is kept |
| Unblocker.RedirectKeepsPrefix | lib/unblocker.js:185-192 | as written, a site given as prefix + target keeps the prefix without its leading '/' |
| Unblocker.RedirectPath | lib/unblocker.js:189-191 | the intended guard: a leading prefix is dropped; otherwise one leading '/' is dropped |
| Unblocker.RedirectPathIntended | lib/unblocker.js:189-192 | the intended guard turns prefix + target into the target, and agrees with the code on every site not starting with '/' |
| Unblocker.RedirectHeaders | lib/unblocker.js:198-200 | the Location is always set, a caller-supplied Location wins, and every caller header is kept |
| Unblocker.RedirectTo | lib/unblocker.js:184-207 | a 307 to this site + the site path under the guard as written, with the caller's headers; `end()` in every case, even when `writeHead` throws |
| Unblocker.RawUrl | lib/unblocker.js:215 | for a URL under the prefix, prefix + `rawUrl` is the URL; otherwise the last characters of the URL, or "" when it is shorter than the prefix |
| Unblocker.InitData | lib/unblocker.js:209-251 | `rawUrl` is the URL after the prefix's length; a proxied path gets the normalised `getRealUrl` result and throws on null; any other path gets the normalised recovered target or none; a null pathname throws |
| Unblocker.Decide | lib/unblocker.js:278-291 | there is no target exactly when `next` is called; otherwise redirect or proxy to the formatted URL |
| Unblocker.DecideRedirectsIff | lib/unblocker.js:281-288 | proxy exactly when the raw URL is the target or the target with its first "://" merged to ":/"; redirect otherwise |
| Unblocker.MergedSlashesProxied | lib/unblocker.js:282-288 | a router that merged the target's slashes does not cause a redirect |
| Unblocker.HandleRequest | lib/unblocker.js:259-293 | redirect with a 307 whose Location is this site + the formatted URL under the as-written guard, proxy, or pass on, as decided; without `next`, a 400 with no headers and the body "Unable to process request" |
| Unblocker.UpgradeReply | lib/unblocker.js:309-315 | an upgrade without a target gets "HTTP/1.1 400 Bad Request" on the socket, and nothing otherwise |
| Cookies.ScopedPath | lib/cookies.js:22-29 | the new path is prefix + token + the old path (or ""), from which the token and the old path can be read back |
| Cookies.Scope | lib/cookies.js:29-31 | name, value and other attributes are kept, the domain becomes the host name, and the path reads back as the token and the old path |
| Cookies.SameOriginShares | lib/cookies.js:22-29 | the token depends on the origin alone: a root-path cookie set by one page is sent with every page of the same origin under the proxy |
| Cookies.ScopedCookieStaysUnder | lib/cookies.js:29 | a request the scoped cookie goes out with lies under the prefix and the token |
| Cookies.ScopesDisjoint | lib/cookies.js:22-52 | cookies under different tokens never go out with the same request |
| Cookies.RewriteCookie | lib/cookies.js:16-32 | both URLs are parsed (either may throw); the same cookie gets the next URL's origin token in its path and its host name as domain, and nothing else changes |
| Cookies.ScopeAll | lib/cookies.js:44-56 | count and order are kept; names, values and other attributes are kept; every path carries the token and every domain is the host name |
| Cookies.TransformCookies | lib/cookies.js:37-61 | paths take the target URL's token and domains the next URL's host name; a missing header becomes an empty list, and no other header changes |
| Cookies.TransformedCookiesScoped | lib/cookies.js:44-56 | every transformed cookie goes out only with requests under the prefix and the target's token, under its own name |
| Cookies.CookieTransform | lib/cookies.js:66-73 | every chunk is passed on unchanged and in order |
| Referer.AfterReferer | lib/referer.js:8-20 | only the referer can change, and only to the parsed path minus the prefix when that path starts with the prefix |
| Referer.Rewritten | lib/referer.js:8-16 | a rewritten referer exists exactly when the header is set, parses, and its path starts with the prefix; then prefix + it is that path |
| Referer.RequestData.ProxyReferer | lib/referer.js:6-21 | the headers become those of `AfterReferer`; an absent referer, a parse error or another path leaves them unchanged |
| Referer.RefererUnwrapped | lib/referer.js:11-15 | a referer whose path is prefix + target becomes exactly the target, without query or fragment |
| Whitelist.AnyCovers | examples/whitelist/whitelist.js:15-18 | `some` holds exactly when some listed domain covers the host |
| Whitelist.Covers | examples/whitelist/whitelist.js:17 | a domain covers a host exactly when the host ends with it and is either equal to it or has a '.' just before it |
| Whitelist.IsRequestAllowed | examples/whitelist/whitelist.js:6-19 | allowed exactly when the URL parses and its host equals a listed domain or ends with "." + that domain |
| Whitelist.SubdomainCovered | examples/whitelist/whitelist.js:17 | every subdomain of a listed domain is allowed |
| Whitelist.OnlyWholeLabels | examples/whitelist/whitelist.js:17 | a host that ends with the domain's text without a dot before it is not covered |
| Whitelist.MoreDomainsAllowMore | examples/whitelist/whitelist.js:15-18 | adding domains never refuses a request that was allowed |
| Whitelist.CheckWhitelist | examples/whitelist/whitelist.js:21-25 | a refused request gets 400 with the message, and an allowed one leaves the response untouched |
| Blacklist.Construct | examples/blacklist/blacklist.js:3-13 | `new URL` through the `url` module object always throws |
| Blacklist.IsBlacklistedWith | examples/blacklist/blacklist.js:9-27 | reported exactly when the construction succeeds and its host name is "example.com" or "malicious.com"; a throwing construction is caught as false |
| Blacklist.IsBlacklistedAsWritten | examples/blacklist/blacklist.js:3-27 | as written, no request is ever reported |
| Blacklist.IsBlacklisted | examples/blacklist/blacklist.js:11-25 | reported exactly when the URL parses and its host is "example.com" or "malicious.com" |
| Blacklist.ListedHostSlipsThrough | examples/blacklist/blacklist.js:3-25 | a request for a listed host is reported by the intended check and let through as written |
| Blacklist.SubdomainNotListed | examples/blacklist/blacklist.js:25 | a subdomain of a listed host is not reported |

## Left out

- URL parsing (`new URL`, `url.parse`, `url.format`) and SHA-256 are parameters of the model. Nothing about the WHATWG URL Standard or the digest is modelled beyond "may throw" and "eight hex digits".
- The Node `Transform` machinery (`push`, `next`, `done`, `pipe`, back-pressure). `Transform` and `Flush` return the text they push.
- The injected click-handler script is opaque text. Its behaviour in the browser is not modelled; among other things, it reads a `urlMapping` that does not exist there.
- The prefix is spliced into `RegExp` sources at lib/url-prefixer.js:33-34 and lib/get-real-url.js:12. The model matches it literally, case-insensitively on ASCII letters. Regular-expression metacharacters in a configured prefix are not modelled.
- Case folding of the `i` flag is modelled on ASCII letters only.
- `$` patterns in a replacement text are not modelled. The only replacement strings are the click script (holding no `$`) and `$1` (modelled as the group).
- `contentTypes.shouldProcess` is a boolean parameter of `PrefixUrls`, and lib/content-types.js is not part of this model.
- Unblocker.InitData: `url.format(url.parse(text))` is one parameter, `normalize`, so nothing is stated about what it does to the text.
- Unblocker.HandleRequest: `clientScriptsServer` is taken to call its callback without an error. The proxying itself (lib/proxy.js) is not part of this model.
- Unblocker.Protocol reads the header "X-Forwarded-Protocol" under that exact name, as the code does. Node lowercases incoming header names, so the lookup finds nothing in practice.
- Unblocker.RecoverFromReferer and Unblocker.InitData take `getRealUrl` as a parameter. `GetRealUrlOf` builds the one of lib/get-real-url.js, and `ProxiedPathParsedAsIs` shows it hands a path under the prefix (such as `/proxy/http://a.com/x`) unrepaired to `new URL(path, "http://example.com")`. That resolves on the fallback host. So with that function, the origin recovered at lines 148-152 and the target `initData` resolves at line 221 would both be on `http://example.com`, not on the proxied site. URL resolution is a parameter, so the model does not state this outcome.
- Cookies.ScopesDisjoint keeps apart cookies under different tokens. A token is eight hex digits of a SHA-256, so two origins can share one. The model leaves the hash unconstrained and does not exclude such a collision.
- `recoverTargetUrl` keeps its condition `request.url == prefix.substr(0, length - 1)`. That condition can never hold for a URL that starts with the prefix.
- Two call shapes in lib/unblocker.js would throw a `TypeError` at run time, and the intended shapes are modelled instead:
  - the `getRealUrl` object called as a function (lines 112, 148, 221);
  - `cookies(config).handleRequest`/`.handleResponse` (lines 56, 72, 83).
- The middleware themselves are identities; only their order is modelled. This covers hsts, hpkp, csp, redirects, decompress, charsets, meta-robots, content-length, client-scripts and the middleware debugger (lines 97-106).
- WebSocket relaying (lib/websockets.js) and concurrency are not modelled. The code is single-threaded, and relaying is I/O.
- Logging (`debug`, `console.error`) has no behaviour to model.
- Cookies.TransformCookies: the `set-cookie` header is held as parsed cookie records, and `set-cookie-parser` is not modelled.
- Cookies.TransformCookies: serialisation (lib/cookies.js:59) is not modelled either. It passes `libCookie.serialize` directly to `map`, which hands it the record, its index and the array rather than a name and a value. Every cookie is then lost: with cookie 0.x each header becomes `[object Object]=0`, `[object Object]=1` and so on, and cookie 1.x throws a `TypeError` on the object name. The model states the records that would be serialised.
- Nothing in the code un-scopes the inbound `Cookie` header, so that direction is not modelled.
- Whitelist.CheckWhitelist: the headers Express adds in `status(400).send(message)` are not modelled. Only the status, the body and the end of the response are.
- lib/host.js is not part of this model. It only copies the parsed host into a header.

## Findings

| source | as written | input that shows it | evidently intended | confidence | as-written member | corrected member |
|---|---|---|---|---|---|---|
| lib/url-prefixer.js:45-49 | the table is keyed by the hash, but it is read back with the original text, so the template writes "undefined" after the prefix | `<a href="http://example.com/">` with prefix `/proxy/` gives `<a href="/proxy/undefined//example.com/">` | `<a href="/proxy/http://example.com/">`, as the header comment at lines 7-10 says | high; not executed | UrlPrefixer.HeaderRewritten | UrlPrefixer.SecondPassAddsNothing |
| examples/blacklist/blacklist.js:3 | `URL` is bound to the `url` module object, so `new URL(...)` at line 13 always throws, is caught, and returns false | any request for `http://malicious.com/` | report hosts "example.com" and "malicious.com" | high; not executed | Blacklist.ListedHostSlipsThrough | Blacklist.IsBlacklisted |
| lib/unblocker.js:186-192 | the leading '/' is dropped before the prefix check, so a prefix starting with '/' is never recognised | `redirectTo("/proxy/http://a.com/")` with prefix `/proxy/` redirects to `…/proxy/proxy/http://a.com/` | drop the prefix, giving `…/proxy/http://a.com/` ("no /proxy/proxy redirects") | medium; not executed | Unblocker.RedirectKeepsPrefix | Unblocker.RedirectPathIntended |
