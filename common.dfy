/** Strings, characters and the few runtime objects that every part of the proxy shares. */
module Common {

  datatype Option<T> = None | Some(value: T)

  /** The value of a JavaScript expression `x || ""`: absent and empty both read as "". */
  function OrEmpty(x: Option<string>): string {
    match x
    case Some(v) => v
    case None => ""
  }

  /** JavaScript truthiness of an optional string: present and non-empty. */
  predicate Truthy(x: Option<string>) {
    x.Some? && x.value != ""
  }

  /** Characters of the regular-expression class `\s` (white space and line terminators). */
  predicate IsSpace(c: char) {
    c == '\t' || c == '\n' || c == '\U{B}' || c == '\U{C}' || c == '\r' || c == ' ' ||
    c == '\U{A0}' || c == '\U{1680}' || ('\U{2000}' <= c <= '\U{200A}') ||
    c == '\U{2028}' || c == '\U{2029}' || c == '\U{202F}' || c == '\U{205F}' ||
    c == '\U{3000}' || c == '\U{FEFF}'
  }

  /** Case folding used by a case-insensitive regular expression, restricted to ASCII letters
      (no other character folds onto the ASCII letters the patterns contain). */
  function Upper(c: char): char {
    if 'a' <= c <= 'z' then (c as int - 32) as char else c
  }

  predicate CiEqual(a: string, b: string) {
    |a| == |b| && forall k :: 0 <= k < |a| ==> Upper(a[k]) == Upper(b[k])
  }

  /** `pat` occurs case-insensitively in `s` at index `i`. */
  predicate CiAt(s: string, i: nat, pat: string) {
    i + |pat| <= |s| && CiEqual(s[i..i + |pat|], pat)
  }

  predicate StartsWith(s: string, p: string) {
    |p| <= |s| && s[..|p|] == p
  }

  predicate EndsWith(s: string, p: string) {
    |p| <= |s| && s[|s| - |p|..] == p
  }

  predicate OccursAt(s: string, pat: string, i: nat) {
    i + |pat| <= |s| && s[i..i + |pat|] == pat
  }

  function FindFrom(s: string, pat: string, i: nat): (r: Option<nat>)
    requires i <= |s|
    ensures r.Some? ==> i <= r.value && OccursAt(s, pat, r.value)
    ensures forall j: nat :: i <= j && (r.None? || j < r.value) ==> !OccursAt(s, pat, j)
    decreases |s| - i
  {
    if i + |pat| > |s| then None
    else if s[i..i + |pat|] == pat then Some(i)
    else FindFrom(s, pat, i + 1)
  }

  /** `String.prototype.indexOf`: the first index at which `pat` occurs. */
  function IndexOf(s: string, pat: string): (r: Option<nat>)
    ensures r.Some? ==> OccursAt(s, pat, r.value)
    ensures forall j: nat :: (r.None? || j < r.value) ==> !OccursAt(s, pat, j)
  {
    FindFrom(s, pat, 0)
  }

  /** `s.replace(pat, rep)` with a string pattern: only the first occurrence is replaced. */
  function ReplaceFirst(s: string, pat: string, rep: string): (r: string)
    ensures IndexOf(s, pat).None? ==> r == s
    ensures IndexOf(s, pat).Some? ==>
      var i := IndexOf(s, pat).value;
      |r| == |s| - |pat| + |rep| && r[..i] == s[..i] && r[i..] == rep + s[i + |pat|..]
  {
    match IndexOf(s, pat)
    case None => s
    case Some(i) => s[..i] + rep + s[i + |pat|..]
  }

  predicate IsHexDigit(c: char) {
    ('0' <= c <= '9') || ('a' <= c <= 'f')
  }

  predicate AllHex(s: string) {
    forall k :: 0 <= k < |s| ==> IsHexDigit(s[k])
  }

  /** The first eight lower-case hex digits of a SHA-256 digest. */
  type Hex8 = s: string | |s| == 8 && AllHex(s) witness "00000000"

  /** `hash(text)` = `sha256(text).digest("hex").slice(0, 8)`; the digest itself is not modelled. */
  type Hasher = string -> Hex8

  /** The parts of a parsed WHATWG URL that the proxy reads. `protocol` ends in ':'. */
  datatype Url = Url(href: string, protocol: string, host: string, hostname: string, pathname: string)

  /** `new URL(text, "http://example.com")`: None where the constructor throws. */
  type UrlParser = string -> Option<Url>

  /** The Node response object as the core drives it: `writeHead` then `end`. */
  class ClientResponse {
    var status: int
    var headers: map<string, string>
    var body: string
    var ended: bool

    constructor ()
      ensures status == 0 && headers == map[] && body == [] && !ended
    {
      status, headers, body, ended := 0, map[], [], false;
    }

    /** Throws (and changes nothing) once the head has been sent or the response ended. */
    method WriteHead(code: int, hs: map<string, string>) returns (thrown: bool)
      requires code > 0
      modifies this
      ensures thrown == (old(status) != 0 || old(ended))
      ensures thrown ==> status == old(status) && headers == old(headers)
      ensures !thrown ==> status == code && headers == hs
      ensures body == old(body) && ended == old(ended)
    {
      thrown := status != 0 || ended;
      if !thrown {
        status, headers := code, hs;
      }
    }

    method End(text: string)
      modifies this
      ensures ended
      ensures body == if old(ended) then old(body) else old(body) + text
      ensures status == old(status) && headers == old(headers)
    {
      if !ended {
        body := body + text;
      }
      ended := true;
    }
  }
}
