/** The path repair of lib/get-real-url.js: two anchored regular-expression rewrites, then a
    parse whose successful results are remembered. */
module RealUrl {
  import opened Common

  // ---------------------------------------------------------------------------------------------
  // /^(https?:\/)([^/])/i replaced by "$1/$2"
  // ---------------------------------------------------------------------------------------------

  /** Length of the group `(https?:\/)` when the whole pattern matches, or 0. The `s?` is greedy,
      and "https:" and "http:" cannot both fit at index 0, so at most one branch applies. */
  function MergedLen(s: string): (n: nat)
    ensures n == 0 || n == 6 || n == 7
    ensures n > 0 ==> n < |s| && s[n] != '/' && s[n - 1] == '/' && s[n - 2] == ':'
    ensures n == 7 <==> CiAt(s, 0, "https:/") && |s| > 7 && s[7] != '/'
    ensures n == 6 <==> CiAt(s, 0, "http:/") && |s| > 6 && s[6] != '/'
  {
    assert CiAt(s, 0, "https:/") ==> s[..7][4] == s[4];
    assert CiAt(s, 0, "http:/") ==> s[..6][4] == s[4];
    if CiAt(s, 0, "https:/") && |s| > 7 && s[7] != '/' then 7
    else if CiAt(s, 0, "http:/") && |s| > 6 && s[6] != '/' then 6
    else 0
  }

  /** Inserts the slash a merged "http:/x" lost. */
  function Unmerge(s: string): (r: string)
    ensures MergedLen(s) == 0 ==> r == s
    ensures MergedLen(s) > 0 ==> r == s[..MergedLen(s)] + "/" + s[MergedLen(s)..]
  {
    var n := MergedLen(s);
    if n == 0 then s else s[..n] + "/" + s[n..]
  }

  /** After un-merging, the scheme is followed by two slashes, so a second un-merge finds nothing. */
  lemma UnmergeIdempotent(s: string)
    ensures Unmerge(Unmerge(s)) == Unmerge(s)
  {
    var n := MergedLen(s);
    if n > 0 {
      var r := Unmerge(s);
      assert r[n] == '/';
      assert r[..n] == s[..n];
      if n == 7 {
        assert r[..7] == s[..7];
        assert !CiAt(r, 0, "http:/") by {
          assert r[..6][4] == s[4];
          assert CiAt(s, 0, "https:/") && s[..7][4] == s[4];
        }
      } else {
        assert CiAt(r, 0, "https:/") ==> r[..7][4] == r[4];
        assert r[..6] == s[..6];
        assert CiAt(s, 0, "http:/") && s[..6][4] == s[4];
      }
    }
  }

  /** A text whose scheme already has both slashes, or that does not start with a scheme, is kept. */
  lemma UnmergeKeeps(s: string)
    requires CiAt(s, 0, "http://") || CiAt(s, 0, "https://") || !(CiAt(s, 0, "http:") || CiAt(s, 0, "https:"))
    ensures Unmerge(s) == s
  {
    if CiAt(s, 0, "https:/") {
      assert CiAt(s, 0, "https:") by { assert s[..6] == s[..7][..6]; }
      assert !CiAt(s, 0, "http:") by { assert s[..7][4] == s[4]; }
      assert s[7] == '/' by { assert s[..8][7] == s[7]; }
    } else if CiAt(s, 0, "http:/") {
      assert CiAt(s, 0, "http:") by { assert s[..5] == s[..6][..5]; }
      assert !CiAt(s, 0, "https:") by { assert s[..6][4] == s[4]; }
      assert s[6] == '/' by { assert s[..7][6] == s[6]; }
    }
  }

  // ---------------------------------------------------------------------------------------------
  // new RegExp("^https?:/?/?" + prefix + "(https?://)", "i") replaced by "$1"
  // ---------------------------------------------------------------------------------------------

  /** Length of `https?:` at index 0 ("https:" tried first), or 0. */
  function OuterLen(s: string): (n: nat)
    ensures n == 0 || n == 5 || n == 6
    ensures n > 0 ==> n <= |s|
    ensures n == 6 <==> CiAt(s, 0, "https:")
    ensures n == 5 <==> CiAt(s, 0, "http:")
  {
    assert CiAt(s, 0, "https:") ==> s[..6][4] == s[4];
    assert CiAt(s, 0, "http:") ==> s[..5][4] == s[4];
    if CiAt(s, 0, "https:") then 6 else if CiAt(s, 0, "http:") then 5 else 0
  }

  /** The group `(https?://)` fits at index `i`. */
  predicate InnerAt(s: string, i: nat) {
    CiAt(s, i, "https://") || CiAt(s, i, "http://")
  }

  /** `/?/?` takes `a` slashes after the outer scheme and the prefix and inner scheme follow. */
  predicate CollapseWith(s: string, prefix: string, a: nat) {
    var n := OuterLen(s);
    n > 0 && n + a <= |s| && (forall k :: n <= k < n + a ==> s[k] == '/') &&
    CiAt(s, n + a, prefix) && InnerAt(s, n + a + |prefix|)
  }

  /** The slash count the backtracking search settles on: two, then one, then none. */
  function Slashes(s: string, prefix: string): (r: Option<nat>)
    ensures r.Some? ==> r.value <= 2 && CollapseWith(s, prefix, r.value)
    ensures r.None? ==> !CollapseWith(s, prefix, 0) && !CollapseWith(s, prefix, 1) && !CollapseWith(s, prefix, 2)
    ensures r.Some? ==> forall b :: r.value < b <= 2 ==> !CollapseWith(s, prefix, b)
  {
    if CollapseWith(s, prefix, 2) then Some(2)
    else if CollapseWith(s, prefix, 1) then Some(1)
    else if CollapseWith(s, prefix, 0) then Some(0)
    else None
  }

  /** Keeps the inner scheme and what follows it; the group is the start of the kept text. */
  function Collapse(s: string, prefix: string): (r: string)
    ensures Slashes(s, prefix).None? ==> r == s
    ensures Slashes(s, prefix).Some? ==>
      var q := OuterLen(s) + Slashes(s, prefix).value + |prefix|;
      q <= |s| && r == s[q..] && InnerAt(r, 0) && CiAt(s, OuterLen(s) + Slashes(s, prefix).value, prefix)
  {
    match Slashes(s, prefix)
    case None => s
    case Some(a) =>
      var q := OuterLen(s) + a + |prefix|;
      assert InnerAt(s[q..], 0) by {
        if CiAt(s, q, "https://") { assert s[q..][..8] == s[q..q + 8]; }
        else { assert s[q..][..7] == s[q..q + 7]; }
      }
      s[q..]
  }

  /** Both repairs in their order: un-merge first, then collapse. */
  function Repair(s: string, prefix: string): (r: string)
    ensures EndsWith(Unmerge(s), r)
    ensures Slashes(Unmerge(s), prefix).Some? ==> InnerAt(r, 0)
    ensures Slashes(Unmerge(s), prefix).None? ==> r == Unmerge(s)
  {
    Collapse(Unmerge(s), prefix)
  }

  /** Neither pattern can match a text that does not start with 'h' in either case, so a path that
      starts with the prefix ("/proxy/…") is handed to the parser as it is. */
  lemma RepairKeepsNonScheme(s: string, prefix: string)
    requires s == [] || Upper(s[0]) != 'H'
    ensures Repair(s, prefix) == s
  {
    if |s| >= 5 {
      assert s[..5][0] == s[0];
    }
    if |s| >= 6 { assert s[..6][0] == s[0]; }
    if |s| >= 7 { assert s[..7][0] == s[0]; }
    assert MergedLen(s) == 0;
    assert OuterLen(s) == 0;
  }

  /** The repaired text of `http:/` + prefix + `http://` + rest: the lost slash comes back, and the
      outer scheme, both slashes and the prefix go, keeping the inner scheme. */
  lemma RepairMergedDoublePrefix(prefix: string, rest: string)
    requires prefix != [] && prefix[0] == '/' && |prefix| >= 2 && prefix[1] != '/'
    ensures Repair("http:" + prefix + "http://" + rest, prefix) == "http://" + rest
  {
    var s := "http:" + prefix + "http://" + rest;
    assert s[..6] == "http:/";
    assert s[6] == prefix[1];
    assert CiAt(s, 0, "http:/");
    assert !CiAt(s, 0, "https:/") by { assert s[..7][4] == ':'; }
    assert MergedLen(s) == 6;
    var u := Unmerge(s);
    assert u == "http:/" + prefix + "http://" + rest by {
      assert s[..6] == "http:/" && s[6..] == prefix[1..] + "http://" + rest;
      assert prefix == "/" + prefix[1..];
    }
    assert u[..5] == "http:";
    assert !CiAt(u, 0, "https:") by { assert u[..6][4] == ':'; }
    assert OuterLen(u) == 5;
    var q := 6 + |prefix|;
    assert u[q..] == "http://" + rest;
    assert u[6..q] == prefix;
    assert CollapseWith(u, prefix, 1) by {
      assert u[q..q + 7] == "http://";
    }
    assert !CollapseWith(u, prefix, 2) by {
      assert u[6] == '/' && u[7] == prefix[1];
    }
    assert Slashes(u, prefix) == Some(1);
  }

  /** What `getRealUrl` returns for a text: the `href` of the repaired text parsed against the
      fallback base, or null where the parse throws. Text that does not start with 'h' or 'H' is
      parsed as it is. */
  function RealUrlOf(prefix: string, parse: UrlParser, s: string): (r: Option<string>)
    ensures r.Some? <==> parse(Repair(s, prefix)).Some?
    ensures r.Some? ==> r.value == parse(Repair(s, prefix)).value.href
    ensures s == [] || Upper(s[0]) != 'H' ==>
      r == if parse(s).Some? then Some(parse(s).value.href) else None
  {
    assert s == [] || Upper(s[0]) != 'H' ==> Repair(s, prefix) == s by {
      if s == [] || Upper(s[0]) != 'H' {
        RepairKeepsNonScheme(s, prefix);
      }
    }
    var parsed := parse(Repair(s, prefix));
    if parsed.Some? then Some(parsed.value.href) else None
  }

  /** `getRealUrl` with its memo table `urlMapping`. */
  class Resolver {
    const prefix: string
    var memo: map<string, string>

    constructor (prefix: string)
      ensures this.prefix == prefix && memo == map[]
    {
      this.prefix := prefix;
      memo := map[];
    }

    /** Repairs the text and parses it against the fallback base; a failed parse yields no URL
        and records nothing, a successful one is recorded under the repaired text. */
    method GetRealUrl(urlString: string, parse: UrlParser) returns (r: Option<string>)
      modifies this
      ensures r == RealUrlOf(prefix, parse, urlString)
      ensures var repaired := Repair(urlString, prefix);
        (parse(repaired).None? ==> r.None? && memo == old(memo)) &&
        (parse(repaired).Some? ==>
          r == Some(parse(repaired).value.href) && memo == old(memo)[repaired := r.value])
    {
      var s := Unmerge(urlString);
      s := Collapse(s, prefix);
      var parsed := parse(s);
      if parsed.None? {
        return None;
      }
      memo := memo[s := parsed.value.href];
      r := Some(parsed.value.href);
    }
  }
}
