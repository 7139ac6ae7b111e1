/** The URL prefixer of lib/url-prefixer.js: the regular-expression passes of `rewriteUrls`,
    the process-wide cloak table, and the chunked stream of `createStream`. */
module UrlPrefixer {
  import opened Common

  // ---------------------------------------------------------------------------------------------
  // Pass 1: /("|'|=|url\(\s*)(https?:)/gi
  // ---------------------------------------------------------------------------------------------

  /** Length of the maximal run of `\s` characters at the start of `u`. */
  function SpaceRun(u: string): (n: nat)
    ensures n <= |u|
    ensures forall k :: 0 <= k < n ==> IsSpace(u[k])
    ensures n < |u| ==> !IsSpace(u[n])
  {
    if u != [] && IsSpace(u[0]) then 1 + SpaceRun(u[1..]) else 0
  }

  /** Length of the first group `("|'|=|url\(\s*)` matched at the start of `s`, or 0.
      `\s*` is greedy and no alternative can backtrack into a scheme, so the run is maximal:
      every shorter delimiter at index 0 is followed by white space. */
  function DelimLen(s: string): (n: nat)
    ensures n <= |s|
    ensures n > 0 ==> IsDelim(s[..n])
    ensures forall j: nat {:trigger DelimEnds(s, j)} :: DelimEnds(s, j) ==> j <= n && (j < n ==> IsSpace(s[j]))
  {
    if |s| > 0 && (s[0] == '"' || s[0] == '\'' || s[0] == '=') then
      DelimAt1(s);
      1
    else if CiAt(s, 0, "url(") then
      UrlDelim(s);
      4 + SpaceRun(s[4..])
    else
      NoDelim(s);
      0
  }

  /** A delimiter of the first group occupies `s[..j]`. */
  predicate DelimEnds(s: string, j: nat) {
    0 < j <= |s| && IsDelim(s[..j])
  }

  /** A quote or '=' at index 0 is the whole delimiter: "url(" cannot start there. */
  lemma DelimAt1(s: string)
    requires |s| > 0 && (s[0] == '"' || s[0] == '\'' || s[0] == '=')
    ensures IsDelim(s[..1])
    ensures forall j: nat {:trigger DelimEnds(s, j)} :: DelimEnds(s, j) ==> j == 1
  {
    assert s[..1] == [s[0]];
    forall j: nat | 0 < j <= |s| && j != 1 ensures !DelimEnds(s, j) {
      assert s[..j][0] == s[0];
      if j >= 4 {
        assert s[..j][..4][0] == s[0];
      }
    }
  }

  /** After "url(", every delimiter at index 0 ends inside the white-space run, and the longest
      one takes the whole run. */
  lemma UrlDelim(s: string)
    requires CiAt(s, 0, "url(")
    ensures IsDelim(s[..4 + SpaceRun(s[4..])])
    ensures forall j: nat {:trigger DelimEnds(s, j)} :: DelimEnds(s, j) ==>
      j <= 4 + SpaceRun(s[4..]) && (j < 4 + SpaceRun(s[4..]) ==> IsSpace(s[j]))
  {
    var w := SpaceRun(s[4..]);
    assert s[..4 + w][..4] == s[..4];
    assert s[..4 + w][4..] == s[4..][..w];
    assert Upper(s[..4][0]) == Upper("url("[0]);
    forall j: nat | 0 < j <= |s|
      ensures DelimEnds(s, j) ==> j <= 4 + w && (j < 4 + w ==> IsSpace(s[j]))
    {
      assert s[..j][0] == s[..4][0];
      if j >= 4 {
        assert s[..j][4..] == s[4..j];
        if 4 + w < j {
          assert s[4..j][w] == s[4..][w];
        }
        if j < 4 + w {
          assert s[j] == s[4..][j - 4];
        }
      }
    }
  }

  /** Without a quote, '=' or "url(" at index 0 there is no delimiter there. */
  lemma NoDelim(s: string)
    requires !(|s| > 0 && (s[0] == '"' || s[0] == '\'' || s[0] == '='))
    requires !CiAt(s, 0, "url(")
    ensures forall j: nat {:trigger DelimEnds(s, j)} :: !DelimEnds(s, j)
  {
    forall j: nat | 0 < j <= |s| ensures !DelimEnds(s, j) {
      assert s[..j][0] == s[0];
      if j >= 4 {
        assert s[..j][..4] == s[..4];
      }
    }
  }

  /** Length of the second group `(https?:)` at index `i`; `s?` is greedy, so "https:" is tried
      first and wins over "http:". */
  function SchemeLen(s: string, i: nat): (n: nat)
    ensures n == 0 || n == 5 || n == 6
    ensures n > 0 ==> i + n <= |s| && IsScheme(s[i..i + n])
    ensures n == 6 <==> CiAt(s, i, "https:")
    ensures n == 0 <==> !CiAt(s, i, "http:") && !CiAt(s, i, "https:")
  {
    if CiAt(s, i, "https:") then 6 else if CiAt(s, i, "http:") then 5 else 0
  }

  datatype Match = Match(delim: nat, scheme: nat)

  /** The match of the absolute-URL pattern that starts at index 0 of `s`, if any: a delimiter
      followed by a scheme. None means that no delimiter at index 0 is followed by a scheme. */
  function AbsMatch(s: string): (r: Option<Match>)
    ensures r.Some? ==> 0 < r.value.delim && 0 < r.value.scheme && r.value.delim + r.value.scheme <= |s|
    ensures r.Some? ==>
      IsDelim(s[..r.value.delim]) && IsScheme(s[r.value.delim..r.value.delim + r.value.scheme])
    ensures r.None? ==> forall j: nat {:trigger DelimEnds(s, j)} :: DelimEnds(s, j) ==> SchemeLen(s, j) == 0
  {
    var d := DelimLen(s);
    if d == 0 then None
    else
      var k := SchemeLen(s, d);
      if k == 0 then
        forall j: nat | DelimEnds(s, j) ensures SchemeLen(s, j) == 0 {
          if j < d {
            SpaceNoScheme(s, j);
          }
        }
        None
      else Some(Match(d, k))
  }

  /** No scheme starts at a white-space character. */
  lemma SpaceNoScheme(s: string, j: nat)
    requires j < |s| && IsSpace(s[j])
    ensures SchemeLen(s, j) == 0
  {
    if j + 5 <= |s| {
      assert Upper(s[j..j + 5][0]) != Upper("http:"[0]);
    }
    if j + 6 <= |s| {
      assert Upper(s[j..j + 6][0]) != Upper("https:"[0]);
    }
  }

  predicate AllSpace(u: string) {
    forall k :: 0 <= k < |u| ==> IsSpace(u[k])
  }

  /** A text the first group can match. */
  predicate IsDelim(d: string) {
    d == "\"" || d == "'" || d == "=" || (CiAt(d, 0, "url(") && AllSpace(d[4..]))
  }

  /** A text the second group can match. */
  predicate IsScheme(sc: string) {
    CiEqual(sc, "http:") || CiEqual(sc, "https:")
  }

  /** What a global replace sees: single characters it steps over and matches it replaces. */
  datatype Piece = Plain(c: char) | Cloaked(delim: string, scheme: string)

  /** The left-to-right, non-overlapping scan of the global pattern over `s`. */
  function Scan(s: string): (ps: seq<Piece>)
    ensures forall k :: 0 <= k < |ps| && ps[k].Cloaked? ==>
      IsDelim(ps[k].delim) && IsScheme(ps[k].scheme)
    decreases |s|
  {
    if s == [] then []
    else match AbsMatch(s)
      case None => [Plain(s[0])] + Scan(s[1..])
      case Some(m) =>
        assert CiAt(s, 0, "url(") ==> s[..m.delim][4..] == s[4..][..SpaceRun(s[4..])];
        [Cloaked(s[..m.delim], s[m.delim..m.delim + m.scheme])] + Scan(s[m.delim + m.scheme..])
  }

  /** The text a sequence of pieces was scanned from. */
  function Source(ps: seq<Piece>): string {
    if ps == [] then []
    else match ps[0]
      case Plain(c) => [c] + Source(ps[1..])
      case Cloaked(d, sc) => d + sc + Source(ps[1..])
  }

  /** Scanning loses nothing: every character is either stepped over or part of a match. */
  lemma {:induction false} ScanLossless(s: string)
    ensures Source(Scan(s)) == s
    decreases |s|
  {
    if s != [] {
      match AbsMatch(s)
      case None =>
        ScanLossless(s[1..]);
        assert s == [s[0]] + s[1..];
      case Some(m) =>
        var n := m.delim + m.scheme;
        ScanLossless(s[n..]);
        var ps := Scan(s);
        assert ps[0] == Cloaked(s[..m.delim], s[m.delim..n]) && ps[1..] == Scan(s[n..]);
        SplitThree(s, m.delim, n);
    }
  }

  // ---------------------------------------------------------------------------------------------
  // The cloak table and the replacement callback
  // ---------------------------------------------------------------------------------------------

  /** How the callback completes `p1 + prefix + …`. `AsWritten` is the lookup of the original
      text in the table (a JavaScript template renders a missing entry as "undefined");
      `Literal` re-emits the matched scheme, as the file's header comment describes. */
  datatype Cloaking = AsWritten | Literal

  /** Every token maps back to a text whose hash it is. */
  ghost predicate Consistent(table: map<string, string>, hash: Hasher) {
    forall k :: k in table ==> k == hash(table[k])
  }

  /** `if (!urlMapping.has(orig)) urlMapping.set(generateHash(orig), orig)`. */
  function Record(table: map<string, string>, hash: Hasher, orig: string): (t: map<string, string>)
    ensures table.Keys <= t.Keys
    ensures orig in table ==> t == table
    ensures orig !in table ==> hash(orig) in t && t[hash(orig)] == orig
    ensures forall k :: k in t && k != hash(orig) ==> k in table && t[k] == table[k]
  {
    if orig in table then table else table[hash(orig) := orig]
  }

  /** What follows the prefix in the callback's output. */
  function Emitted(mode: Cloaking, table: map<string, string>, orig: string, scheme: string): (r: string)
    ensures mode == Literal ==> r == scheme
    ensures mode == AsWritten && orig in table ==> r == table[orig]
    ensures mode == AsWritten && orig !in table ==> r == "undefined"
  {
    match mode
    case Literal => scheme
    case AsWritten => if orig in table then table[orig] else "undefined"
  }

  datatype Rewritten = Rewritten(text: string, table: map<string, string>)

  /** Runs the replacement callback over the pieces in order, threading the table through. */
  function Apply(ps: seq<Piece>, prefix: string, mode: Cloaking, hash: Hasher,
                 table: map<string, string>): (r: Rewritten)
    ensures table.Keys <= r.table.Keys
    ensures Consistent(table, hash) ==> Consistent(r.table, hash)
    ensures Consistent(table, hash) ==> forall k :: 0 <= k < |ps| && ps[k].Cloaked? && IsDelim(ps[k].delim) ==>
      hash(ps[k].delim + ps[k].scheme) in r.table
  {
    if ps == [] then Rewritten([], table)
    else match ps[0]
      case Plain(c) =>
        var r := Apply(ps[1..], prefix, mode, hash, table);
        assert forall k :: 1 <= k < |ps| ==> ps[k] == ps[1..][k - 1];
        Rewritten([c] + r.text, r.table)
      case Cloaked(d, sc) =>
        var orig := d + sc;
        var t := Record(table, hash, orig);
        var r := Apply(ps[1..], prefix, mode, hash, t);
        assert forall k :: 1 <= k < |ps| ==> ps[k] == ps[1..][k - 1];
        assert Consistent(table, hash) && IsDelim(d) ==> orig !in table by {
          if Consistent(table, hash) && IsDelim(d) && orig in table {
            NotAToken(table, hash, d, sc);
          }
        }
        Rewritten(d + prefix + Emitted(mode, t, orig, sc) + r.text, r.table)
  }

  /** An original text `delim + scheme` never looks like a token: tokens are eight hex digits and
      no delimiter starts with one. */
  lemma NotAToken(table: map<string, string>, hash: Hasher, d: string, sc: string)
    requires Consistent(table, hash) && IsDelim(d)
    ensures d + sc !in table
  {
    assert (d + sc)[0] == d[0];
    assert !IsHexDigit((d + sc)[0]);
    forall k | k in table
      ensures |k| == 8 && IsHexDigit(k[0])
    {
      var h: Hex8 := hash(table[k]);
      assert k == h;
    }
  }

  /** The text the callback produces, given what each match becomes. */
  function Render(ps: seq<Piece>, prefix: string, literal: bool): string {
    if ps == [] then []
    else match ps[0]
      case Plain(c) => [c] + Render(ps[1..], prefix, literal)
      case Cloaked(d, sc) => d + prefix + (if literal then sc else "undefined") + Render(ps[1..], prefix, literal)
  }

  /** Which text the callback writes: under `Literal` the scheme is kept after the prefix; as
      written, the lookup by the original text always misses (the table is keyed by hashes), so
      every matched scheme is replaced by "undefined". */
  lemma {:induction false} ApplyText(ps: seq<Piece>, prefix: string, mode: Cloaking, hash: Hasher,
                                     table: map<string, string>)
    requires mode == AsWritten ==> Consistent(table, hash)
    requires forall k :: 0 <= k < |ps| && ps[k].Cloaked? ==> IsDelim(ps[k].delim)
    ensures Apply(ps, prefix, mode, hash, table).text == Render(ps, prefix, mode == Literal)
  {
    if ps != [] {
      assert forall k :: 1 <= k < |ps| ==> ps[1..][k - 1] == ps[k];
      match ps[0]
      case Plain(c) =>
        ApplyText(ps[1..], prefix, mode, hash, table);
      case Cloaked(d, sc) =>
        var t := Record(table, hash, d + sc);
        if mode == AsWritten {
          NotAToken(table, hash, d, sc);
          NotAToken(t, hash, d, sc);
        }
        ApplyText(ps[1..], prefix, mode, hash, t);
    }
  }

  /** The first pass of `rewriteUrls`. Its text is the rendering of the scan (the scheme kept
      after the prefix, or "undefined" as written); its table only grows, keeps every key equal to
      the hash of its value, and holds a token for every match. */
  function CloakUrls(s: string, prefix: string, mode: Cloaking, hash: Hasher,
                     table: map<string, string>): (r: Rewritten)
    ensures (mode == Literal || Consistent(table, hash)) ==> r.text == Render(Scan(s), prefix, mode == Literal)
    ensures table.Keys <= r.table.Keys
    ensures Consistent(table, hash) ==> Consistent(r.table, hash)
    ensures Consistent(table, hash) ==>
      forall k :: 0 <= k < |Scan(s)| && Scan(s)[k].Cloaked? ==> hash(Scan(s)[k].delim + Scan(s)[k].scheme) in r.table
  {
    var r := Apply(Scan(s), prefix, mode, hash, table);
    assert mode == Literal || Consistent(table, hash) ==> r.text == Render(Scan(s), prefix, mode == Literal) by {
      if mode == Literal || Consistent(table, hash) {
        ApplyText(Scan(s), prefix, mode, hash, table);
      }
    }
    r
  }

  // ---------------------------------------------------------------------------------------------
  // A second pass over cloaked text adds nothing (literal cloaking)
  // ---------------------------------------------------------------------------------------------

  /** Characters that cannot start a match: not a quote, not '=', and not the 'u' of "url(". */
  predicate Passive(c: char) {
    var u := Upper(c);
    u != '"' && u != '\'' && u != '=' && u != 'U'
  }

  /** A prefix the first pass cannot find a delimiter in, starting and ending with '/'. */
  predicate CleanPrefix(prefix: string) {
    |prefix| > 0 && prefix[0] == '/' && prefix[|prefix| - 1] == '/' &&
    forall k :: 0 <= k < |prefix| ==> prefix[k] != '"' && prefix[k] != '\'' && prefix[k] != '=' && prefix[k] != '('
  }

  /** No match of the first pattern starts anywhere in `t`. */
  predicate Inert(t: string)
    decreases |t|
  {
    t == [] || (AbsMatch(t).None? && Inert(t[1..]))
  }

  ghost function Rendered(s: string, prefix: string): string {
    Render(Scan(s), prefix, true)
  }

  lemma PassiveStep(s: string, prefix: string)
    requires s != [] && Passive(s[0])
    ensures Scan(s) == [Plain(s[0])] + Scan(s[1..])
    ensures Rendered(s, prefix) == [s[0]] + Rendered(s[1..], prefix)
  {
    PassiveNoMatch(s);
    RenderPlainHead(s[0], Scan(s[1..]), prefix, true);
  }

  lemma PassiveNoMatch(s: string)
    requires s != [] && Passive(s[0])
    ensures AbsMatch(s).None?
  {
    assert !CiAt(s, 0, "url(") by {
      if |s| >= 4 {
        assert s[..4][0] == s[0];
      }
    }
    assert DelimLen(s) == 0;
  }

  lemma RenderPlainHead(c: char, qs: seq<Piece>, prefix: string, literal: bool)
    ensures Render([Plain(c)] + qs, prefix, literal) == [c] + Render(qs, prefix, literal)
  {
    assert ([Plain(c)] + qs)[1..] == qs;
  }

  lemma FirstKept(s: string, prefix: string)
    requires s != []
    ensures Rendered(s, prefix) != [] && Rendered(s, prefix)[0] == s[0]
  {
  }

  lemma CiAtCons(x: string, pat: string)
    requires pat != []
    ensures CiAt(x, 0, pat) <==> x != [] && Upper(x[0]) == Upper(pat[0]) && CiAt(x[1..], 0, pat[1..])
  {
    if x != [] && Upper(x[0]) == Upper(pat[0]) && CiAt(x[1..], 0, pat[1..]) {
      forall k | 0 <= k < |pat| ensures Upper(x[k]) == Upper(pat[k]) {
        if k > 0 {
          assert x[1..][..|pat| - 1][k - 1] == x[k];
        }
      }
    }
    if CiAt(x, 0, pat) {
      forall k | 0 <= k < |pat| - 1 ensures Upper(x[1..][k]) == Upper(pat[1..][k]) {
        assert x[..|pat|][k + 1] == x[k + 1];
      }
    }
  }

  lemma CiAtShift(x: string, i: nat, pat: string)
    requires i <= |x|
    ensures CiAt(x, i, pat) <==> CiAt(x[i..], 0, pat)
  {
    if i + |pat| <= |x| {
      assert x[i..i + |pat|] == x[i..][..|pat|];
    }
  }

  /** Cloaking leaves a case-insensitive run of passive characters at the start where it was. */
  lemma {:induction false} CiAtStable(s: string, pat: string, prefix: string)
    requires forall k :: 0 <= k < |pat| ==> Passive(pat[k])
    ensures CiAt(Rendered(s, prefix), 0, pat) <==> CiAt(s, 0, pat)
    decreases |pat|
  {
    if pat != [] {
      CiAtCons(Rendered(s, prefix), pat);
      CiAtCons(s, pat);
      if s != [] {
        FirstKept(s, prefix);
        if Upper(s[0]) == Upper(pat[0]) {
          assert Passive(s[0]);
          PassiveStep(s, prefix);
          assert Rendered(s, prefix)[1..] == Rendered(s[1..], prefix);
          CiAtStable(s[1..], pat[1..], prefix);
        }
      }
    }
  }

  /** A run of passive characters is copied through unchanged, under either cloaking. */
  lemma {:induction false} PassiveRun(s: string, k: nat, prefix: string, literal: bool)
    requires k <= |s|
    requires forall j :: 0 <= j < k ==> Passive(s[j])
    ensures Render(Scan(s), prefix, literal) == s[..k] + Render(Scan(s[k..]), prefix, literal)
    decreases k
  {
    if k > 0 {
      var t := s[1..];
      PassiveRenderStep(s, prefix, literal);
      forall j | 0 <= j < k - 1 ensures Passive(t[j]) {
        assert t[j] == s[j + 1];
      }
      PassiveRun(t, k - 1, prefix, literal);
      SplitHead(s, k);
      var r := Render(Scan(s[k..]), prefix, literal);
      assert Render(Scan(t), prefix, literal) == t[..k - 1] + r;
      Reassociate([s[0]], t[..k - 1], Render(Scan(t), prefix, literal), r);
    }
  }

  lemma PassiveRenderStep(s: string, prefix: string, literal: bool)
    requires s != [] && Passive(s[0])
    ensures Render(Scan(s), prefix, literal) == [s[0]] + Render(Scan(s[1..]), prefix, literal)
  {
    PassiveNoMatch(s);
    RenderPlainHead(s[0], Scan(s[1..]), prefix, literal);
  }

  lemma Reassociate(a: string, b: string, m: string, z: string)
    requires m == b + z
    ensures a + m == (a + b) + z
  {
  }

  lemma SchemeStable(s: string, prefix: string)
    ensures SchemeLen(Rendered(s, prefix), 0) == SchemeLen(s, 0)
  {
    CiAtStable(s, "https:", prefix);
    CiAtStable(s, "http:", prefix);
  }

  /** A position the scan steps over is still stepped over once the rest has been cloaked. */
  lemma MatchStable(s: string, prefix: string)
    requires s != [] && AbsMatch(s).None?
    ensures AbsMatch(Rendered(s, prefix)).None?
  {
    var out := Rendered(s, prefix);
    assert out == [s[0]] + Rendered(s[1..], prefix);
    assert out[1..] == Rendered(s[1..], prefix);
    if s[0] == '"' || s[0] == '\'' || s[0] == '=' {
      SchemeStable(s[1..], prefix);
      CiAtShift(out, 1, "https:");
      CiAtShift(out, 1, "http:");
      CiAtShift(s, 1, "https:");
      CiAtShift(s, 1, "http:");
    } else {
      CiAtCons(out, "url(");
      CiAtCons(s, "url(");
      CiAtStable(s[1..], "rl(", prefix);
      if CiAt(s, 0, "url(") {
        UrlStable(s, prefix);
      }
    }
  }

  lemma UrlStable(s: string, prefix: string)
    requires CiAt(s, 0, "url(") && AbsMatch(s).None?
    ensures var out := Rendered(s, prefix);
      DelimLen(out) == DelimLen(s) && SchemeLen(out, DelimLen(s)) == 0
  {
    var out := Rendered(s, prefix);
    var w := SpaceRun(s[4..]);
    var rest := Rendered(s[4 + w..], prefix);
    UrlShape(s, prefix);
    assert CiAt(out, 0, "url(") by {
      assert out[..4] == s[..4];
    }
    assert out[4..] == s[4..4 + w] + rest;
    if 4 + w < |s| {
      FirstKept(s[4 + w..], prefix);
    }
    SpaceRunAfter(s[4..4 + w], rest);
    assert DelimLen(out) == 4 + w;
    assert out[4 + w..] == rest;
    SchemeStable(s[4 + w..], prefix);
    CiAtShift(out, 4 + w, "https:");
    CiAtShift(out, 4 + w, "http:");
    CiAtShift(s, 4 + w, "https:");
    CiAtShift(s, 4 + w, "http:");
  }

  lemma UrlShape(s: string, prefix: string)
    requires CiAt(s, 0, "url(") && AbsMatch(s).None?
    ensures Rendered(s, prefix) == s[..4 + SpaceRun(s[4..])] + Rendered(s[4 + SpaceRun(s[4..])..], prefix)
  {
    var k := 4 + SpaceRun(s[4..]);
    var t := s[1..];
    var r := Rendered(s[k..], prefix);
    assert Rendered(s, prefix) == [s[0]] + Rendered(t, prefix) by {
      StepOver(s, prefix);
    }
    assert Rendered(t, prefix) == t[..k - 1] + r by {
      UrlOpenerPassive(s);
      PassiveRun(t, k - 1, prefix, true);
      assert t[k - 1..] == s[k..];
    }
    assert [s[0]] + t[..k - 1] == s[..k] by {
      SplitHead(s, k);
    }
    Reassociate([s[0]], t[..k - 1], Rendered(t, prefix), r);
  }

  lemma SplitHead(s: string, n: nat)
    requires 1 <= n <= |s|
    ensures [s[0]] + s[1..][..n - 1] == s[..n] && s[1..][n - 1..] == s[n..]
  {
  }

  /** After its 'u', an opening "url(" and its white space hold only passive characters. */
  lemma UrlOpenerPassive(s: string)
    requires CiAt(s, 0, "url(")
    ensures forall j :: 0 <= j < 3 + SpaceRun(s[4..]) ==> Passive(s[1..][j])
  {
    var w := SpaceRun(s[4..]);
    var t := s[1..];
    forall j | 0 <= j < 3 + w ensures Passive(t[j]) {
      if j < 3 {
        assert t[j] == s[..4][j + 1];
        assert Upper(s[..4][j + 1]) == Upper("url("[j + 1]);
      } else {
        assert t[j] == s[4..][j - 3];
      }
    }
  }

  /** A position where no match starts is copied through as a single character. */
  lemma StepOver(s: string, prefix: string)
    requires s != [] && AbsMatch(s).None?
    ensures Rendered(s, prefix) == [s[0]] + Rendered(s[1..], prefix)
  {
    var ps := Scan(s);
    assert ps == [Plain(s[0])] + Scan(s[1..]);
    assert ps[0] == Plain(s[0]) && ps[1..] == Scan(s[1..]);
  }

  lemma {:induction false} SpaceRunAfter(a: string, y: string)
    requires AllSpace(a)
    requires y == [] || !IsSpace(y[0])
    ensures SpaceRun(a + y) == |a|
    decreases |a|
  {
    if a != [] {
      assert (a + y)[1..] == a[1..] + y;
      SpaceRunAfter(a[1..], y);
    } else {
      assert a + y == y;
    }
  }

  lemma {:induction false} InertPassive(a: string, rest: string)
    requires forall k :: 0 <= k < |a| ==> Passive(a[k])
    requires Inert(rest)
    ensures Inert(a + rest)
    decreases |a|
  {
    if a == [] {
      assert a + rest == rest;
    } else {
      assert (a + rest)[0] == a[0];
      CiAtCons(a + rest, "url(");
      assert (a + rest)[1..] == a[1..] + rest;
      InertPassive(a[1..], rest);
    }
  }

  /** The tail of a clean prefix holds no delimiter: its only possible 'u' cannot begin "url(",
      because a '/' ends it before any '(' could follow. */
  lemma {:induction false} InertPrefixTail(a: string, rest: string)
    requires |a| > 0 && a[|a| - 1] == '/'
    requires forall k :: 0 <= k < |a| ==> a[k] != '"' && a[k] != '\'' && a[k] != '=' && a[k] != '('
    requires Inert(rest)
    ensures Inert(a + rest)
    decreases |a|
  {
    var x := a + rest;
    if |a| >= 4 {
      assert x[3] == a[3];
    } else if |a| == 3 {
      assert x[2] == '/';
    } else if |a| == 2 {
      assert x[1] == '/';
    }
    assert !CiAt(x, 0, "url(");
    assert AbsMatch(x).None?;
    if |a| == 1 {
      assert x[1..] == rest;
    } else {
      assert x[1..] == a[1..] + rest;
      InertPrefixTail(a[1..], rest);
    }
  }

  lemma SchemePassive(sc: string)
    requires IsScheme(sc)
    ensures forall k :: 0 <= k < |sc| ==> Passive(sc[k])
  {
    forall k | 0 <= k < |sc| ensures Passive(sc[k]) {
      if CiEqual(sc, "http:") {
        assert Upper(sc[k]) == Upper("http:"[k]);
      } else {
        assert Upper(sc[k]) == Upper("https:"[k]);
      }
    }
  }

  /** No scheme starts at a '/'. */
  lemma NoSchemeAtSlash(x: string, i: nat)
    requires i < |x| && x[i] == '/'
    ensures SchemeLen(x, i) == 0
  {
    CiAtCons(x[i..], "https:");
    CiAtCons(x[i..], "http:");
    CiAtShift(x, i, "https:");
    CiAtShift(x, i, "http:");
  }

  lemma InertCloaked(d: string, prefix: string, sc: string, rest: string)
    requires IsDelim(d) && CleanPrefix(prefix) && IsScheme(sc) && Inert(rest)
    ensures Inert(d + prefix + sc + rest)
  {
    SchemePassive(sc);
    InertPassive(sc, rest);
    InertPrefixTail(prefix, sc + rest);
    var y := prefix + (sc + rest);
    Assoc4(d, prefix, sc, rest);
    if d == "\"" || d == "'" || d == "=" {
      InertAfterQuote(d, y);
    } else {
      InertAfterUrl(d, y);
    }
  }

  lemma Assoc4(a: string, b: string, c: string, e: string)
    ensures a + b + c + e == a + (b + (c + e))
  {
  }

  lemma InertAfterQuote(d: string, y: string)
    requires d == "\"" || d == "'" || d == "="
    requires Inert(y) && y != [] && y[0] == '/'
    ensures Inert(d + y)
  {
    var x := d + y;
    assert x[1] == '/';
    NoSchemeAtSlash(x, 1);
    assert x[1..] == y;
  }

  lemma InertAfterUrl(d: string, y: string)
    requires CiAt(d, 0, "url(") && AllSpace(d[4..])
    requires Inert(y) && y != [] && y[0] == '/'
    ensures Inert(d + y)
  {
    NoMatchAfterUrl(d, y);
    InertUrlTail(d, y);
    InertCons(d + y);
  }

  lemma InertUrlTail(d: string, y: string)
    requires CiAt(d, 0, "url(") && AllSpace(d[4..])
    requires Inert(y)
    ensures Inert((d + y)[1..])
  {
    assert Inert(d[1..] + y) by {
      UrlTailPassive(d);
      InertPassive(d[1..], y);
    }
    assert (d + y)[1..] == d[1..] + y;
  }

  lemma InertCons(x: string)
    requires x != [] && AbsMatch(x).None? && Inert(x[1..])
    ensures Inert(x)
  {
  }

  lemma UrlTailPassive(d: string)
    requires CiAt(d, 0, "url(") && AllSpace(d[4..])
    ensures forall k :: 0 <= k < |d[1..]| ==> Passive(d[1..][k])
  {
    forall k | 0 <= k < |d| - 1 ensures Passive(d[1..][k]) {
      if k < 3 {
        assert Upper(d[1..][k]) == Upper("url("[k + 1]);
      } else {
        assert d[1..][k] == d[4..][k - 3];
      }
    }
  }

  lemma NoMatchAfterUrl(d: string, y: string)
    requires CiAt(d, 0, "url(") && AllSpace(d[4..])
    requires y != [] && y[0] == '/'
    ensures AbsMatch(d + y).None?
  {
    var x := d + y;
    assert CiAt(x, 0, "url(") by {
      assert x[..4] == d[..4];
    }
    assert x[4..] == d[4..] + y;
    SpaceRunAfter(d[4..], y);
    assert DelimLen(x) == |d|;
    assert x[|d|] == '/';
    NoSchemeAtSlash(x, |d|);
  }

  /** Literal cloaking leaves text in which the first pattern matches nowhere. */
  lemma {:induction false} CloakedIsInert(s: string, prefix: string)
    requires CleanPrefix(prefix)
    ensures Inert(Rendered(s, prefix))
    decreases |s|
  {
    if s != [] {
      match AbsMatch(s)
      case None =>
        MatchStable(s, prefix);
        CloakedIsInert(s[1..], prefix);
        assert Rendered(s, prefix)[1..] == Rendered(s[1..], prefix);
      case Some(m) =>
        var n := m.delim + m.scheme;
        CloakedIsInert(s[n..], prefix);
        var ps := Scan(s);
        assert ps[0].Cloaked?;
        InertCloaked(s[..m.delim], prefix, s[m.delim..n], Rendered(s[n..], prefix));
    }
  }

  /** Over text where nothing matches, the first pass changes neither the text nor the table. */
  lemma {:induction false} InertUnchanged(t: string, prefix: string, mode: Cloaking, hash: Hasher,
                                          table: map<string, string>)
    requires Inert(t)
    ensures CloakUrls(t, prefix, mode, hash, table) == Rewritten(t, table)
    decreases |t|
  {
    if t != [] {
      InertUnchanged(t[1..], prefix, mode, hash, table);
      assert Scan(t) == [Plain(t[0])] + Scan(t[1..]);
      assert Scan(t)[1..] == Scan(t[1..]);
      assert t == [t[0]] + t[1..];
    }
  }

  /** With literal cloaking, a second pass over cloaked text inserts no second prefix: every
      rewritten scheme now follows the prefix's final '/', which is no delimiter. */
  lemma SecondPassAddsNothing(s: string, prefix: string, hash: Hasher, t1: map<string, string>,
                              t2: map<string, string>)
    requires CleanPrefix(prefix)
    ensures var once := CloakUrls(s, prefix, Literal, hash, t1).text;
      CloakUrls(once, prefix, Literal, hash, t2) == Rewritten(once, t2)
  {
    ApplyText(Scan(s), prefix, Literal, hash, t1);
    CloakedIsInert(s, prefix);
    InertUnchanged(Rendered(s, prefix), prefix, Literal, hash, t2);
  }

  // ---------------------------------------------------------------------------------------------
  // Pass 2: new RegExp('(xmlns(:[a-z]+)?=")' + prefix, "ig") replaced by "$1"
  // ---------------------------------------------------------------------------------------------

  predicate IsLetter(c: char) {
    'A' <= Upper(c) <= 'Z'
  }

  function LetterRun(u: string): (n: nat)
    ensures n <= |u|
    ensures forall k :: 0 <= k < n ==> IsLetter(u[k])
    ensures n < |u| ==> !IsLetter(u[n])
  {
    if u != [] && IsLetter(u[0]) then 1 + LetterRun(u[1..]) else 0
  }

  /** The letter run of `u` is exactly its first `k` characters. */
  lemma LetterRunIs(u: string, k: nat)
    requires k < |u| && !IsLetter(u[k])
    requires forall j :: 0 <= j < k ==> IsLetter(u[j])
    ensures LetterRun(u) == k
  {
  }

  /** Length of the group `xmlns(:[a-z]+)?="` at the start of `s`, or 0. A ':' commits to the
      optional part, since without it '=' would have to follow "xmlns" directly. At most one
      declaration starts at index 0, and this is its length. */
  function XmlnsDeclLen(s: string): (n: nat)
    ensures n == 0 || 7 <= n <= |s|
    ensures n > 0 ==> IsXmlnsDecl(s[..n])
    ensures forall m: nat {:trigger XmlnsEnds(s, m)} :: XmlnsEnds(s, m) ==> m == n
  {
    assert forall m: nat {:trigger XmlnsEnds(s, m)} :: XmlnsEnds(s, m) ==> DeclFits(s, m) by {
      forall m: nat | XmlnsEnds(s, m) ensures DeclFits(s, m) {
        DeclShape(s, m);
      }
    }
    if !CiAt(s, 0, "xmlns") then 0
    else if |s| > 5 && s[5] == ':' then
      var k := LetterRun(s[6..]);
      if k > 0 && OccursAt(s, "=\"", 6 + k) then
        var n := 8 + k;
        assert s[..n][..5] == s[..5] && s[..n][5] == ':' && s[..n][n - 2..] == s[n - 2..n];
        assert forall j :: 6 <= j < n - 2 ==> s[..n][j] == s[6..][j - 6];
        n
      else 0
    else if OccursAt(s, "=\"", 5) then
      assert s[..7][..5] == s[..5] && s[..7][5..] == s[5..7];
      7
    else 0
  }

  /** A namespace declaration the group can match. */
  predicate IsXmlnsDecl(d: string) {
    |d| >= 7 && CiAt(d, 0, "xmlns") && d[|d| - 2..] == "=\"" &&
    (|d| == 7 || (|d| >= 9 && d[5] == ':' && forall k :: 6 <= k < |d| - 2 ==> IsLetter(d[k])))
  }

  /** A declaration occupies `s[..m]`. */
  predicate XmlnsEnds(s: string, m: nat) {
    m <= |s| && IsXmlnsDecl(s[..m])
  }

  /** What a declaration of length `m` at index 0 says about `s`, in the terms the regular
      expression is tried in. */
  predicate DeclFits(s: string, m: nat) {
    CiAt(s, 0, "xmlns") && 7 <= m <= |s| &&
    ((m == 7 && s[5] == '=' && OccursAt(s, "=\"", 5)) ||
     (m >= 9 && s[5] == ':' && LetterRun(s[6..]) == m - 8 && OccursAt(s, "=\"", m - 2)))
  }

  lemma DeclShape(s: string, m: nat)
    requires XmlnsEnds(s, m)
    ensures DeclFits(s, m)
  {
    var d := s[..m];
    assert d[..5] == s[..5];
    assert d[5] == s[5];
    assert d[m - 2..] == s[m - 2..m];
    if m != 7 {
      var u := s[6..];
      forall j | 0 <= j < m - 8 ensures IsLetter(u[j]) {
        assert u[j] == d[6 + j];
      }
      assert u[m - 8] == d[m - 2];
      LetterRunIs(u, m - 8);
    }
  }

  /** Pieces of the second pass: characters stepped over, and declarations whose prefix goes. */
  datatype XPiece = Kept(c: char) | Unprefixed(decl: string, removed: string)

  function XmlnsScan(s: string, prefix: string): (xs: seq<XPiece>)
    ensures forall k :: 0 <= k < |xs| && xs[k].Unprefixed? ==>
      IsXmlnsDecl(xs[k].decl) && CiEqual(xs[k].removed, prefix)
    decreases |s|
  {
    if s == [] then []
    else
      var g := XmlnsDeclLen(s);
      if g > 0 && CiAt(s, g, prefix) then
        [Unprefixed(s[..g], s[g..g + |prefix|])] + XmlnsScan(s[g + |prefix|..], prefix)
      else [Kept(s[0])] + XmlnsScan(s[1..], prefix)
  }

  function XSource(xs: seq<XPiece>): string {
    if xs == [] then []
    else match xs[0]
      case Kept(c) => [c] + XSource(xs[1..])
      case Unprefixed(d, p) => d + p + XSource(xs[1..])
  }

  function XRender(xs: seq<XPiece>): string {
    if xs == [] then []
    else match xs[0]
      case Kept(c) => [c] + XRender(xs[1..])
      case Unprefixed(d, p) => d + XRender(xs[1..])
  }

  /** The second pass: each declaration followed by the prefix loses the prefix; it only deletes. */
  function StripXmlns(s: string, prefix: string): (r: string)
    ensures |r| <= |s|
  {
    XmlnsScanLossless(s, prefix);
    XRenderShorter(XmlnsScan(s, prefix));
    XRender(XmlnsScan(s, prefix))
  }

  lemma {:induction false} XRenderShorter(xs: seq<XPiece>)
    ensures |XRender(xs)| <= |XSource(xs)|
  {
    if xs != [] {
      XRenderShorter(xs[1..]);
    }
  }

  /** The second pass only drops text: what it scanned is exactly the input, and it keeps each
      declaration while dropping the prefix (in any letter case) that followed it. */
  lemma {:induction false} XmlnsScanLossless(s: string, prefix: string)
    ensures XSource(XmlnsScan(s, prefix)) == s
    decreases |s|
  {
    if s != [] {
      var g := XmlnsDeclLen(s);
      if g > 0 && CiAt(s, g, prefix) {
        var n := g + |prefix|;
        XmlnsScanLossless(s[n..], prefix);
        SplitThree(s, g, n);
      } else {
        XmlnsScanLossless(s[1..], prefix);
        assert s == [s[0]] + s[1..];
      }
    }
  }

  lemma SplitThree(s: string, a: nat, b: nat)
    requires a <= b <= |s|
    ensures s == s[..a] + s[a..b] + s[b..]
  {
  }

  // ---------------------------------------------------------------------------------------------
  // Pass 3: new RegExp('(<!DOCTYPE[^>]+")' + prefix, "i") replaced by "$1" (first match only)
  // ---------------------------------------------------------------------------------------------

  function NonGtRun(u: string): (n: nat)
    ensures n <= |u|
    ensures forall k :: 0 <= k < n ==> u[k] != '>'
    ensures n < |u| ==> u[n] == '>'
  {
    if u != [] && u[0] != '>' then 1 + NonGtRun(u[1..]) else 0
  }

  /** The greedy `[^>]+` backs off one character at a time, so the last fitting quote wins. */
  function LastQuote(s: string, prefix: string, lo: nat, hi: nat): (r: Option<nat>)
    requires hi <= |s|
    ensures r.Some? ==> lo <= r.value < hi && s[r.value] == '"' && CiAt(s, r.value + 1, prefix)
    ensures forall q :: lo <= q < hi && (r.None? || r.value < q) ==> !(s[q] == '"' && CiAt(s, q + 1, prefix))
    decreases hi
  {
    if hi <= lo then None
    else if s[hi - 1] == '"' && CiAt(s, hi, prefix) then Some(hi - 1)
    else LastQuote(s, prefix, lo, hi - 1)
  }

  /** `s[i..q + 1]` is the group `<!DOCTYPE[^>]+"` and the prefix follows it. */
  predicate DoctypeQuoteAt(s: string, prefix: string, i: nat, q: nat) {
    CiAt(s, i, "<!DOCTYPE") && i + 10 <= q < |s| && s[q] == '"' && CiAt(s, q + 1, prefix) &&
    forall k :: i + 9 <= k < q ==> s[k] != '>'
  }

  /** The quote ending the group of a DOCTYPE match that starts at `i`: the last quote that fits,
      since `[^>]+` is greedy; None when no quote fits. */
  function DoctypeQuote(s: string, prefix: string, i: nat): (r: Option<nat>)
    requires i <= |s|
    ensures r.Some? ==> DoctypeQuoteAt(s, prefix, i, r.value)
    ensures forall q: nat {:trigger DoctypeQuoteAt(s, prefix, i, q)} ::
      DoctypeQuoteAt(s, prefix, i, q) ==> r.Some? && q <= r.value
  {
    if !CiAt(s, i, "<!DOCTYPE") then None
    else
      var run := NonGtRun(s[i + 9..]);
      var r := LastQuote(s, prefix, i + 10, i + 9 + run);
      assert r.Some? ==> forall k :: i + 9 <= k < r.value ==> s[k] == s[i + 9..][k - i - 9];
      assert i + 9 + run < |s| ==> s[i + 9 + run] == '>' by {
        assert i + 9 + run < |s| ==> s[i + 9..][run] == s[i + 9 + run];
      }
      r
  }

  /** Where the leftmost DOCTYPE match at or after `i` starts. */
  function FirstDoctype(s: string, prefix: string, i: nat): (r: Option<nat>)
    requires i <= |s|
    ensures r.Some? ==> i <= r.value <= |s| && DoctypeQuote(s, prefix, r.value).Some?
    ensures forall j :: i <= j <= |s| && (r.None? || j < r.value) ==> DoctypeQuote(s, prefix, j).None?
    decreases |s| - i
  {
    if DoctypeQuote(s, prefix, i).Some? then Some(i)
    else if i == |s| then None
    else FirstDoctype(s, prefix, i + 1)
  }

  /** Drops the prefix after the quote of the first DOCTYPE match only (the pattern has no `g`). */
  function StripDoctype(s: string, prefix: string): (r: string)
    ensures FirstDoctype(s, prefix, 0).None? ==> r == s
    ensures FirstDoctype(s, prefix, 0).Some? ==>
      var q := DoctypeQuote(s, prefix, FirstDoctype(s, prefix, 0).value).value;
      |r| == |s| - |prefix| && r[..q + 1] == s[..q + 1] && r[q + 1..] == s[q + 1 + |prefix|..]
  {
    match FirstDoctype(s, prefix, 0)
    case None => s
    case Some(j) =>
      var q := DoctypeQuote(s, prefix, j).value;
      s[..q + 1] + s[q + 1 + |prefix|..]
  }

  /** `rewriteUrls(chunk, uri, prefix)`: cloak, then repair namespace and DOCTYPE values. */
  function RewriteUrls(s: string, prefix: string, mode: Cloaking, hash: Hasher,
                       table: map<string, string>): (r: Rewritten)
    ensures table.Keys <= r.table.Keys
    ensures Consistent(table, hash) ==> Consistent(r.table, hash)
    ensures |r.text| <= |CloakUrls(s, prefix, mode, hash, table).text|
  {
    var c := CloakUrls(s, prefix, mode, hash, table);
    Rewritten(StripDoctype(StripXmlns(c.text, prefix), prefix), c.table)
  }

  // ---------------------------------------------------------------------------------------------
  // The header comment's example, under both cloakings
  // ---------------------------------------------------------------------------------------------

  /** A quote or `=` followed by a quote or `>` opens no match. */
  lemma StepOverDelim(x: string)
    requires |x| >= 2 && (x[0] == '"' || x[0] == '=') && (x[1] == '"' || x[1] == '>')
    ensures Scan(x) == [Plain(x[0])] + Scan(x[1..])
  {
    NoSchemeAtQuote(x, 1);
  }

  /** A quote followed by "http:" and then not by 's' is one match. */
  lemma QuotedHttp(x: string)
    requires |x| >= 6 && x[0] == '"' && x[1..6] == "http:"
    ensures Scan(x) == [Cloaked("\"", "http:")] + Scan(x[6..])
  {
    assert DelimLen(x) == 1;
    SchemeHttpAt(x, 1);
    assert AbsMatch(x) == Some(Match(1, 5));
    assert x[..1] == "\"";
  }

  /** "http:" not followed by 's' is a five-character scheme. */
  lemma SchemeHttpAt(x: string, i: nat)
    requires i + 5 <= |x| && x[i..i + 5] == "http:"
    ensures SchemeLen(x, i) == 5
  {
    assert CiAt(x, i, "http:") by {
      forall k | 0 <= k < 5 ensures Upper(x[i..i + 5][k]) == Upper("http:"[k]) { }
    }
    if i + 6 <= |x| {
      assert x[i..i + 6][4] == x[i..i + 5][4] == ':';
      assert Upper(x[i..i + 6][4]) != Upper("https:"[4]);
    }
  }

  /** `=` before a quote is stepped over. */
  lemma EqualsBeforeQuote(z: string, prefix: string, literal: bool)
    requires |z| >= 2 && z[0] == '"' && z[1] == 'h'
    ensures Render(Scan("=" + z), prefix, literal) == "=" + Render(Scan(z), prefix, literal)
  {
    var y := "=" + z;
    assert y[1..] == z;
    assert y[1] == '"';
    NoSchemeAtQuote(y, 1);
  }

  /** A quote and "http:" become the quote, the prefix and what the callback emits for them. */
  lemma QuoteHttp(w: string, prefix: string, literal: bool)
    ensures Render(Scan("\"http:" + w), prefix, literal) ==
      "\"" + prefix + (if literal then "http:" else "undefined") + Render(Scan(w), prefix, literal)
  {
    var z := "\"http:" + w;
    assert z[1..6] == "http:" && z[6..] == w;
    QuotedHttp(z);
  }

  /** A passive run and a closing `">` are copied through. */
  lemma ClosingQuote(rest: string, prefix: string, literal: bool)
    requires forall j :: 0 <= j < |rest| ==> Passive(rest[j])
    ensures Render(Scan(rest + "\">"), prefix, literal) == rest + "\">"
  {
    var w := rest + "\">";
    assert w[..|rest|] == rest && w[|rest|..] == "\">";
    PassiveRun(w, |rest|, prefix, literal);
    StepOverDelim("\">");
    assert "\">"[1..] == ">";
    PassiveStep(">", prefix);
    assert Scan(">") == [Plain('>')];
    assert Scan("\">") == [Plain('"'), Plain('>')];
    assert [Plain('"'), Plain('>')][1..] == [Plain('>')];
    assert Render([Plain('>')], prefix, literal) == ">";
    assert Render(Scan("\">"), prefix, literal) == "\">";
  }

  /** An attribute `name="http:rest"` whose name and rest hold no delimiter: the one match is
      the opening quote and the scheme, so the prefix goes right after the quote. */
  lemma QuotedAttribute(name: string, rest: string, prefix: string, mode: Cloaking, hash: Hasher,
                        table: map<string, string>)
    requires forall j :: 0 <= j < |name| ==> Passive(name[j])
    requires forall j :: 0 <= j < |rest| ==> Passive(rest[j])
    requires mode == AsWritten ==> Consistent(table, hash)
    ensures CloakUrls(name + "=\"http:" + rest + "\">", prefix, mode, hash, table).text ==
      name + "=\"" + prefix + (if mode == Literal then "http:" else "undefined") + rest + "\">"
  {
    AttributeSplit(name, rest);
    AttributeRender(name, rest, prefix, mode == Literal);
  }

  /** The rendering behind `QuotedAttribute`: the passive name is copied, then the tail. */
  lemma AttributeRender(name: string, rest: string, prefix: string, lit: bool)
    requires forall j :: 0 <= j < |name| ==> Passive(name[j])
    requires forall j :: 0 <= j < |rest| ==> Passive(rest[j])
    ensures Render(Scan(name + ("=" + ("\"http:" + (rest + "\">")))), prefix, lit) ==
      name + "=\"" + prefix + (if lit then "http:" else "undefined") + rest + "\">"
  {
    var y := "=" + ("\"http:" + (rest + "\">"));
    var x := name + y;
    SplitAt(name, y);
    PassiveRun(x, |name|, prefix, lit);
    AttributeTail(rest, prefix, lit);
    AssocTail(name, "=\"", prefix, if lit then "http:" else "undefined", rest, "\">");
  }

  /** `="http:` + rest + `">`: the `=` is stepped over, the quote and scheme are one match, and
      the passive rest and the closing `">` are copied. */
  lemma AttributeTail(rest: string, prefix: string, lit: bool)
    requires forall j :: 0 <= j < |rest| ==> Passive(rest[j])
    ensures Render(Scan("=" + ("\"http:" + (rest + "\">"))), prefix, lit) ==
      "=\"" + prefix + (if lit then "http:" else "undefined") + rest + "\">"
  {
    var w := rest + "\">";
    var z := "\"http:" + w;
    EqualsBeforeQuote(z, prefix, lit);
    QuoteHttp(w, prefix, lit);
    ClosingQuote(rest, prefix, lit);
    AttributeText(Render(Scan("=" + z), prefix, lit), Render(Scan(z), prefix, lit),
                  Render(Scan(w), prefix, lit), rest, prefix, if lit then "http:" else "undefined");
  }

  lemma AssocTail(a: string, b: string, c: string, d: string, f: string, g: string)
    ensures a + (b + c + d + f + g) == a + b + c + d + f + g
  {
  }

  lemma AttributeSplit(name: string, rest: string)
    ensures name + "=\"http:" + rest + "\">" == name + ("=" + ("\"http:" + (rest + "\">")))
  {
    assert "=\"http:" == "=" + "\"http:";
  }

  lemma SplitAt(a: string, b: string)
    ensures (a + b)[..|a|] == a && (a + b)[|a|..] == b
  {
  }

  lemma AttributeText(ry: string, rz: string, rw: string, rest: string, prefix: string, e: string)
    requires ry == "=" + rz && rz == "\"" + prefix + e + rw && rw == rest + "\">"
    ensures ry == "=\"" + prefix + e + rest + "\">"
  {
    assert "=" + "\"" == "=\"";
  }

  /** The example in the header comment of lib/url-prefixer.js: `<a href="http://example.com/">`
      becomes `<a href="/proxy/http://example.com/">` when the scheme is kept, and
      `<a href="/proxy/undefined//example.com/">` as the callback is written. */
  lemma HeaderExample(name: string, rest: string, mode: Cloaking, hash: Hasher, table: map<string, string>)
    requires name == "<a href" && rest == "//example.com/"
    requires mode == AsWritten ==> Consistent(table, hash)
    ensures CloakUrls(name + "=\"http:" + rest + "\">", "/proxy/", mode, hash, table).text ==
      name + "=\"/proxy/" + (if mode == Literal then "http:" else "undefined") + rest + "\">"
  {
    HeaderPassive(name, rest);
    QuotedAttribute(name, rest, "/proxy/", mode, hash, table);
    JoinPrefix(name);
  }

  /** The same header example through all three passes: the output of the first pass holds
      neither an "xmlns" nor a "<!DOCTYPE", so the later passes keep it as it is. */
  lemma HeaderRewritten(name: string, rest: string, mode: Cloaking, hash: Hasher, table: map<string, string>)
    requires name == "<a href" && rest == "//example.com/"
    requires mode == AsWritten ==> Consistent(table, hash)
    ensures RewriteUrls(name + "=\"http:" + rest + "\">", "/proxy/", mode, hash, table).text ==
      name + "=\"/proxy/" + (if mode == Literal then "http:" else "undefined") + rest + "\">"
  {
    HeaderExample(name, rest, mode, hash, table);
    var w := if mode == Literal then "http:" else "undefined";
    var out := name + "=\"/proxy/" + w + rest + "\">";
    HeaderQuiet(name, w, rest);
    QuietHasNoMarker(out);
    NoDeclKept(out, "/proxy/");
    NoDoctypeMatchKept(out, "/proxy/");
  }

  /** Two neighbouring characters that start neither "xmlns" nor "<!DOCTYPE" in any letter case. */
  predicate QuietPair(c: char, d: char) {
    !(Upper(c) == 'X' && Upper(d) == 'M') && !(c == '<' && d == '!')
  }

  /** Text in which no "xmlns" and no "<!DOCTYPE" can start, judged by neighbouring pairs. */
  predicate Quiet(s: string) {
    forall k :: 0 <= k < |s| - 1 ==> QuietPair(s[k], s[k + 1])
  }

  /** Text that cannot start a marker, followed by text whose first character cannot continue
      one, stays quiet. */
  lemma QuietConcat(a: string, b: string)
    requires Quiet(a) && Quiet(b)
    requires b != [] ==> Upper(b[0]) != 'M' && b[0] != '!'
    ensures Quiet(a + b)
  {
    var t := a + b;
    forall k | 0 <= k < |t| - 1 ensures QuietPair(t[k], t[k + 1]) {
      if k + 1 < |a| {
        assert t[k] == a[k] && t[k + 1] == a[k + 1];
      } else if k + 1 == |a| {
        assert t[k + 1] == b[0];
      } else {
        assert t[k] == b[k - |a|] && t[k + 1] == b[k + 1 - |a|];
      }
    }
  }

  lemma QuietHasNoMarker(t: string)
    requires Quiet(t)
    ensures NoXmlnsBefore(t, |t|)
    ensures forall k :: 0 <= k <= |t| ==> !CiAt(t, k, "<!DOCTYPE")
  {
    forall k | 0 <= k < |t| ensures !CiAt(t, k, "xmlns") {
      if k + 5 <= |t| {
        assert QuietPair(t[k], t[k + 1]);
        assert t[k..k + 5][0] == t[k] && t[k..k + 5][1] == t[k + 1];
      }
    }
    forall k | 0 <= k <= |t| ensures !CiAt(t, k, "<!DOCTYPE") {
      if k + 9 <= |t| {
        assert QuietPair(t[k], t[k + 1]);
        assert t[k..k + 9][0] == t[k] && t[k..k + 9][1] == t[k + 1];
      }
    }
  }

  /** Text in which no "<!DOCTYPE" starts comes through the third pass unchanged. */
  lemma NoDoctypeMatchKept(t: string, prefix: string)
    requires forall k :: 0 <= k <= |t| ==> !CiAt(t, k, "<!DOCTYPE")
    ensures StripDoctype(t, prefix) == t
  {
  }

  lemma HeaderQuiet(name: string, w: string, rest: string)
    requires name == "<a href" && rest == "//example.com/" && (w == "http:" || w == "undefined")
    ensures Quiet(name + "=\"/proxy/" + w + rest + "\">")
  {
    var eq, close := "=\"/proxy/", "\">";
    QuietWords(name, eq, close);
    QuietWord(w);
    QuietRest(rest);
    QuietConcat(name, eq);
    QuietConcat(name + eq, w);
    QuietConcat(name + eq + w, rest);
    QuietConcat(name + eq + w + rest, close);
  }

  lemma QuietWords(name: string, eq: string, close: string)
    requires name == "<a href" && eq == "=\"/proxy/" && close == "\">"
    ensures Quiet(name) && Quiet(eq) && Quiet(close)
    ensures eq[0] == '=' && close[0] == '"'
  {
  }

  lemma QuietWord(w: string)
    requires w == "http:" || w == "undefined"
    ensures Quiet(w) && w != [] && Upper(w[0]) != 'M' && w[0] != '!'
  {
  }

  lemma QuietRest(rest: string)
    requires rest == "//example.com/"
    ensures Quiet(rest) && rest[0] == '/'
  {
    assert Quiet("//ex") && Quiet("ample.com/");
    QuietConcat("//ex", "ample.com/");
    assert "//ex" + "ample.com/" == rest;
  }

  lemma HeaderPassive(name: string, rest: string)
    requires name == "<a href" && rest == "//example.com/"
    ensures forall j :: 0 <= j < |name| ==> Passive(name[j])
    ensures forall j :: 0 <= j < |rest| ==> Passive(rest[j])
  {
    PassiveConcat("<a ", "href");
    PassiveConcat("//ex", "ampl");
    PassiveConcat("e.co", "m/");
    PassiveConcat("//ex" + "ampl", "e.co" + "m/");
    assert "//ex" + "ampl" + ("e.co" + "m/") == rest;
  }

  lemma JoinPrefix(name: string)
    ensures name + "=\"" + "/proxy/" == name + "=\"/proxy/"
  {
    assert "=\"" + "/proxy/" == "=\"/proxy/";
    Assoc(name, "=\"", "/proxy/");
  }

  /** Passive text stays passive when joined. */
  lemma PassiveConcat(a: string, b: string)
    requires forall j :: 0 <= j < |a| ==> Passive(a[j])
    requires forall j :: 0 <= j < |b| ==> Passive(b[j])
    ensures forall j :: 0 <= j < |a + b| ==> Passive((a + b)[j])
  {
    forall j | 0 <= j < |a + b| ensures Passive((a + b)[j]) {
      if j < |a| {
        assert (a + b)[j] == a[j];
      } else {
        assert (a + b)[j] == b[j - |a|];
      }
    }
  }

  lemma Assoc(a: string, b: string, c: string)
    ensures a + b + c == a + (b + c)
  {
  }

  /** No "xmlns" in any letter case starts at an index of `s` below `n`. */
  predicate NoXmlnsBefore(s: string, n: nat) {
    forall k :: 0 <= k < n ==> !CiAt(s, k, "xmlns")
  }

  /** Text in front in which no "xmlns" starts comes through the second pass unchanged, and the
      pass goes on with the rest as if that text were absent. */
  lemma {:induction false} KeptBefore(a: string, b: string, prefix: string)
    requires NoXmlnsBefore(a + b, |a|)
    ensures StripXmlns(a + b, prefix) == a + StripXmlns(b, prefix)
    decreases |a|
  {
    if a != [] {
      var s := a + b;
      assert !CiAt(s, 0, "xmlns");
      assert s[1..] == a[1..] + b;
      forall k | 0 <= k < |a| - 1 ensures !CiAt(a[1..] + b, k, "xmlns") {
        CiAtShift(s, k + 1, "xmlns");
        CiAtShift(s[1..], k, "xmlns");
        assert s[1..][k..] == s[k + 1..];
      }
      KeptBefore(a[1..], b, prefix);
      StepKept(s, prefix);
      calc {
        StripXmlns(a + b, prefix);
        [a[0]] + StripXmlns(a[1..] + b, prefix);
        [a[0]] + (a[1..] + StripXmlns(b, prefix));
        { assert a == [a[0]] + a[1..]; }
        a + StripXmlns(b, prefix);
      }
    } else {
      assert a + b == b;
    }
  }

  /** Where no "xmlns" starts, the second pass keeps one character and goes on. */
  lemma StepKept(s: string, prefix: string)
    requires s != [] && !CiAt(s, 0, "xmlns")
    ensures StripXmlns(s, prefix) == [s[0]] + StripXmlns(s[1..], prefix)
  {
    var xs := XmlnsScan(s, prefix);
    assert xs == [Kept(s[0])] + XmlnsScan(s[1..], prefix);
    assert xs[1..] == XmlnsScan(s[1..], prefix);
  }

  /** Text in which no "xmlns" starts holds no namespace declaration, so the second pass keeps it. */
  lemma NoDeclKept(t: string, prefix: string)
    requires NoXmlnsBefore(t, |t|)
    ensures StripXmlns(t, prefix) == t
  {
    assert t + [] == t;
    KeptBefore(t, [], prefix);
  }

  /** Every declaration, `xmlns="` or `xmlns:name="`, directly followed by the prefix in any
      letter case loses that prefix, and the pass goes on after it. */
  lemma DeclUnprefixed(d: string, p: string, u: string, prefix: string)
    requires IsXmlnsDecl(d) && CiEqual(p, prefix)
    ensures StripXmlns(d + p + u, prefix) == d + StripXmlns(u, prefix)
  {
    var s := d + p + u;
    assert s[..|d|] == d;
    assert XmlnsEnds(s, |d|);
    var g := XmlnsDeclLen(s);
    assert s[g..g + |prefix|] == p;
    assert s[g + |prefix|..] == u;
    var xs := XmlnsScan(s, prefix);
    assert xs == [Unprefixed(d, p)] + XmlnsScan(u, prefix);
    assert xs[1..] == XmlnsScan(u, prefix);
  }

  /** Without '<' there is no DOCTYPE, so the third pass keeps the text. */
  lemma NoDoctypeKept(t: string, prefix: string)
    requires forall k :: 0 <= k < |t| ==> t[k] != '<'
    ensures StripDoctype(t, prefix) == t
  {
    forall j | 0 <= j <= |t| ensures !CiAt(t, j, "<!DOCTYPE") {
      if j + 9 <= |t| {
        assert t[j..j + 9][0] == t[j];
      }
    }
  }

  /** A namespace URI comes through `rewriteUrls` as it was: the first pass prefixes it like any
      quoted URL and the second pass takes the prefix off again (scheme kept literally). */
  lemma NamespaceSurvives(rest: string, prefix: string, hash: Hasher, table: map<string, string>)
    requires UriChars(rest)
    requires NoXmlnsBefore(rest, |rest|)
    ensures var x := "xmlns=\"http:" + rest + "\">";
      RewriteUrls(x, prefix, Literal, hash, table).text == x
  {
    var x := "xmlns=\"http:" + rest + "\">";
    var u := "http:" + rest + "\">";
    assert x == "xmlns=\"" + u;
    forall k | 0 <= k < |u| ensures !CiAt(u, k, "xmlns") {
      if k + 5 <= |u| {
        var w := u[k..k + 5];
        if k < 5 {
          assert w[0] == u[k] == "http:"[k];
          assert Upper(w[0]) != 'X';
        } else if k <= |rest| {
          assert w == rest[k - 5..k];
          assert !CiAt(rest, k - 5, "xmlns");
        } else {
          assert u[5 + |rest|] == '"' && u[6 + |rest|] == '>';
          assert w[4] == u[k + 4];
          assert Upper(w[4]) != 'S';
        }
      }
    }
    forall j | 0 <= j < |u| ensures u[j] != '<' {
      if 5 <= j < 5 + |rest| {
        assert u[j] == rest[j - 5];
      }
    }
    var c := CloakUrls(x, prefix, Literal, hash, table);
    NamespaceCloaked(rest, prefix, hash, table);
    assert c.text == "xmlns=\"" + prefix + u;
    NamespaceRepaired(u, prefix);
  }

  /** Characters that a namespace URI passes the first pass with: none starts a match, and
      none opens a DOCTYPE. */
  predicate UriChars(s: string) {
    forall j :: 0 <= j < |s| ==> Passive(s[j]) && s[j] != '<'
  }

  /** `UriChars` without 'x' in either case. */
  predicate PlainUri(s: string) {
    UriChars(s) && forall j :: 0 <= j < |s| ==> Upper(s[j]) != 'X'
  }

  lemma PlainUriConcat(a: string, b: string)
    requires PlainUri(a) && PlainUri(b)
    ensures PlainUri(a + b)
  {
    forall j | 0 <= j < |a + b| ensures Passive((a + b)[j]) && (a + b)[j] != '<' && Upper((a + b)[j]) != 'X' {
      if j < |a| {
        assert (a + b)[j] == a[j];
      } else {
        assert (a + b)[j] == b[j - |a|];
      }
    }
  }

  /** After text without 'x', a last word of five characters whose second is not 'm' cannot
      complete an "xmlns" either. */
  lemma NoXmlnsAfterPlain(a: string, b: string)
    requires PlainUri(a) && |b| == 5 && Upper(b[1]) != 'M'
    ensures NoXmlnsBefore(a + b, |a + b|)
  {
    var t := a + b;
    forall k | 0 <= k < |t| ensures !CiAt(t, k, "xmlns") {
      if k + 5 <= |t| {
        var w := t[k..k + 5];
        if k < |a| {
          assert w[0] == a[k];
        } else {
          assert w[1] == b[1];
        }
      }
    }
  }

  /** The XHTML namespace in particular. */
  lemma XhtmlNamespaceSurvives(prefix: string, hash: Hasher, table: map<string, string>)
    ensures var x := "xmlns=\"http://www.w3.org/1999/xhtml\">";
      RewriteUrls(x, prefix, Literal, hash, table).text == x
  {
    var rest := "//www.w3.org/1999/xhtml";
    XhtmlUri(rest);
    assert "xmlns=\"http:" + rest + "\">" == "xmlns=\"http://www.w3.org/1999/xhtml\">";
    NamespaceSurvives(rest, prefix, hash, table);
  }

  lemma NamespaceCloaked(rest: string, prefix: string, hash: Hasher, table: map<string, string>)
    requires forall j :: 0 <= j < |rest| ==> Passive(rest[j])
    ensures CloakUrls("xmlns=\"http:" + rest + "\">", prefix, Literal, hash, table).text ==
      "xmlns=\"" + prefix + ("http:" + rest + "\">")
  {
    var n := "xmlns";
    PassiveConcat("xm", "lns");
    assert n + "=\"http:" == "xmlns=\"http:";
    QuotedAttribute(n, rest, prefix, Literal, hash, table);
    assert n + "=\"" == "xmlns=\"";
    var x := "xmlns=\"" + prefix;
    assert x + "http:" + rest + "\">" == x + ("http:" + rest + "\">") by {
      Assoc(x + "http:", rest, "\">");
      Assoc(x, "http:", rest + "\">");
      Assoc("http:", rest, "\">");
    }
  }

  lemma XhtmlUri(rest: string)
    requires rest == "//www.w3.org/1999/xhtml"
    ensures UriChars(rest) && NoXmlnsBefore(rest, |rest|)
  {
    var a := "//www." + "w3.org" + "/1999/";
    var b := "xhtml";
    assert rest == a + b;
    W3Plain(a);
    assert UriChars(b) && b[1] == 'h';
    NoXmlnsAfterPlain(a, b);
    UriCharsConcat(a, b);
  }

  lemma W3Plain(a: string)
    requires a == "//www." + "w3.org" + "/1999/"
    ensures PlainUri(a)
  {
    assert PlainUri("//www.") && PlainUri("w3.org") && PlainUri("/1999/");
    PlainUriConcat("//www.", "w3.org");
    PlainUriConcat("//www." + "w3.org", "/1999/");
  }

  lemma UriCharsConcat(a: string, b: string)
    requires UriChars(a) && UriChars(b)
    ensures UriChars(a + b)
  {
    forall j | 0 <= j < |a + b| ensures Passive((a + b)[j]) && (a + b)[j] != '<' {
      if j < |a| {
        assert (a + b)[j] == a[j];
      } else {
        assert (a + b)[j] == b[j - |a|];
      }
    }
  }

  lemma NamespaceRepaired(u: string, prefix: string)
    requires NoXmlnsBefore(u, |u|)
    requires forall j :: 0 <= j < |u| ==> u[j] != '<'
    ensures StripDoctype(StripXmlns("xmlns=\"" + prefix + u, prefix), prefix) == "xmlns=\"" + u
  {
    var d := "xmlns=\"";
    assert d[..5] == "xmlns" && d[5..] == "=\"";
    assert IsXmlnsDecl(d);
    DeclUnprefixed(d, prefix, u, prefix);
    NoDeclKept(u, prefix);
    var x := d + u;
    assert forall k :: 0 <= k < |x| ==> x[k] != '<' by {
      forall k | 0 <= k < |x| ensures x[k] != '<' {
        if k >= 7 {
          assert x[k] == u[k - 7];
        }
      }
    }
    NoDoctypeKept(x, prefix);
  }

  lemma NoSchemeAtQuote(x: string, i: nat)
    requires i < |x| && (x[i] == '"' || x[i] == '>')
    ensures SchemeLen(x, i) == 0
  {
    CiAtCons(x[i..], "https:");
    CiAtCons(x[i..], "http:");
    CiAtShift(x, i, "https:");
    CiAtShift(x, i, "http:");
  }

  // ---------------------------------------------------------------------------------------------
  // The partial-tail pattern: /((url\(\s*)?\s[^\s]+\s*)$/ (case-sensitive, first match)
  // ---------------------------------------------------------------------------------------------

  /** Length of the maximal run of non-`\s` characters at the start of `u`. */
  function WordRun(u: string): (n: nat)
    ensures n <= |u|
    ensures forall k :: 0 <= k < n ==> !IsSpace(u[k])
    ensures n < |u| ==> IsSpace(u[n])
  {
    if u != [] && !IsSpace(u[0]) then 1 + WordRun(u[1..]) else 0
  }

  /** `u` matches `[^\s]+\s*$`: one word, then only white space to the end. */
  predicate WordThenSpaces(u: string) {
    WordRun(u) > 0 && AllSpace(u[WordRun(u)..])
  }

  /** The second alternative starts at `i`: `\s[^\s]+\s*$`. */
  predicate SpaceWordAt(s: string, i: nat) {
    i < |s| && IsSpace(s[i]) && WordThenSpaces(s[i + 1..])
  }

  /** The first alternative starts at `i`: "url(" and white space, then the last word. Since the
      word cannot begin with white space, `\s*\s` takes the whole run of white space. */
  predicate UrlWordAt(s: string, i: nat) {
    OccursAt(s, "url(", i) && SpaceRun(s[i + 4..]) > 0 && WordThenSpaces(s[i + 4 + SpaceRun(s[i + 4..])..])
  }

  predicate PartialAt(s: string, i: nat) {
    UrlWordAt(s, i) || SpaceWordAt(s, i)
  }

  /** The leftmost index, at `i` or after, where the partial pattern matches through to the end. */
  function PartialFrom(s: string, i: nat): (r: Option<nat>)
    requires i <= |s|
    ensures r.Some? ==> i <= r.value < |s| && PartialAt(s, r.value)
    ensures forall j: nat :: i <= j && (r.None? || j < r.value) ==> !PartialAt(s, j)
    decreases |s| - i
  {
    if i == |s| then None
    else if PartialAt(s, i) then Some(i)
    else PartialFrom(s, i + 1)
  }

  /** `chunk.match(re_html_partial)`: the start of the text to hold back, if any. The whole match
      is group 1, which is never empty, so a match always holds text back. */
  function PartialStart(s: string): (r: Option<nat>)
    ensures r.Some? ==> r.value < |s| && PartialAt(s, r.value)
    ensures forall j: nat :: (r.None? || j < r.value) ==> !PartialAt(s, j)
  {
    PartialFrom(s, 0)
  }

  /** The text handed to `rewriteUrls` now, and the text held back for the next chunk. */
  datatype Cut = Cut(kept: string, withheld: string)

  function CutPartial(s: string): (c: Cut)
    ensures c.kept + c.withheld == s
    ensures c.withheld == [] <==> PartialStart(s).None?
    ensures c.withheld != [] ==> PartialAt(s, |c.kept|) && forall j :: 0 <= j < |c.kept| ==> !PartialAt(s, j)
  {
    match PartialStart(s)
    case None => Cut(s, [])
    case Some(i) => Cut(s[..i], s[i..])
  }

  /** A text held back is a last word after white space, or an opening "url(" before it. */
  lemma WithheldShape(s: string)
    requires CutPartial(s).withheld != []
    ensures var w := CutPartial(s).withheld;
      (IsSpace(w[0]) && WordThenSpaces(w[1..])) ||
      (w[..4] == "url(" && SpaceRun(w[4..]) > 0 && WordThenSpaces(w[4 + SpaceRun(w[4..])..]))
  {
    var i := PartialStart(s).value;
    assert CutPartial(s).withheld == s[i..];
    if UrlWordAt(s, i) {
      UrlWordShape(s, i);
    } else {
      SpaceWordShape(s, i);
    }
  }

  lemma UrlWordShape(s: string, i: nat)
    requires UrlWordAt(s, i)
    ensures var w := s[i..];
      w[..4] == "url(" && SpaceRun(w[4..]) > 0 && WordThenSpaces(w[4 + SpaceRun(w[4..])..])
  {
    var w := s[i..];
    var r := SpaceRun(s[i + 4..]);
    assert w[..4] == s[i..i + 4];
    assert w[4..] == s[i + 4..];
    assert w[4 + r..] == s[i + 4 + r..];
  }

  lemma SpaceWordShape(s: string, i: nat)
    requires SpaceWordAt(s, i)
    ensures var w := s[i..]; IsSpace(w[0]) && WordThenSpaces(w[1..])
  {
    assert s[i..][1..] == s[i + 1..];
  }

  /** A text ending in white space followed by a word always holds something back. */
  lemma TrailingWordWithheld(a: string, sp: char, word: string)
    requires IsSpace(sp) && word != [] && forall k :: 0 <= k < |word| ==> !IsSpace(word[k])
    ensures CutPartial(a + [sp] + word).withheld != []
  {
    var s := a + [sp] + word;
    var u := s[|a| + 1..];
    assert u == word;
    WordRunAll(word);
    assert s[|a|] == sp;
    assert WordThenSpaces(u);
    assert SpaceWordAt(s, |a|);
    assert PartialAt(s, |a|);
    assert PartialStart(s).Some?;
  }

  lemma {:induction false} WordRunAll(word: string)
    requires forall k :: 0 <= k < |word| ==> !IsSpace(word[k])
    ensures WordRun(word) == |word|
    decreases |word|
  {
    if word != [] {
      WordRunAll(word[1..]);
    }
  }

  // ---------------------------------------------------------------------------------------------
  // The click handler injected before </body>
  // ---------------------------------------------------------------------------------------------

  // The script text around the two places the prefix is spliced in.
  const ScriptOpen: string :=
    "\n                        " +
    "document.addEventListener('click', " +
    "function(event) {" +
    "\n                            " +
    "const target = " +
    "event.target.closest('a');" +
    "\n                            " +
    "if (target && " +
    "target.href.includes('"
  const ScriptMiddle: string :=
    "')) {" +
    "\n                                " +
    "const cloakedUrl = " +
    "target.href.split('"
  const ScriptClose: string :=
    "')[1];" +
    "\n                                " +
    "if " +
    "(urlMapping.has(cloakedUrl)) " +
    "{" +
    "\n                                    " +
    "event.preventDefault();" +
    "\n                                    " +
    "window.location.href = " +
    "urlMapping.get(cloakedUrl);" +
    "\n                                " +
    "}" +
    "\n                            " +
    "}" +
    "\n                        " +
    "});" +
    "\n                    "

  /** The click-handler script, cut at the two places where the prefix is spliced in. */
  datatype ScriptTemplate = ScriptTemplate(open: string, middle: string, close: string)

  const ClickHandler: ScriptTemplate := ScriptTemplate(ScriptOpen, ScriptMiddle, ScriptClose)

  /** The script element the stream inserts before the first "</body>" of a chunk: the template
      with the prefix spliced in after its opening part and after its middle part. */
  function ClickScript(t: ScriptTemplate, prefix: string): (r: string)
    ensures StartsWith(r, "<script>") && EndsWith(r, "</script></body>")
    ensures OccursAt(r, prefix, 8 + |t.open|) &&
      OccursAt(r, prefix, 8 + |t.open| + |prefix| + |t.middle|)
  {
    Spliced("<script>", t.open, prefix, t.middle, t.close, "</script></body>");
    "<script>" + t.open + prefix + t.middle + prefix + t.close + "</script></body>"
  }

  /** Where the parts of a text spliced around two copies of `p` lie. */
  lemma Spliced(open: string, a: string, p: string, b: string, c: string, close: string)
    ensures var r := open + a + p + b + p + c + close;
      StartsWith(r, open) && EndsWith(r, close) &&
      OccursAt(r, p, |open| + |a|) && OccursAt(r, p, |open| + |a| + |p| + |b|)
  {
    var r := open + a + p + b + p + c + close;
    var i := |open| + |a|;
    var j := i + |p| + |b|;
    assert r[..|open|] == open;
    assert r[|r| - |close|..] == close;
    assert r[i..i + |p|] == p;
    assert r[j..j + |p|] == p;
  }

  /** `chunk.includes("</body>") && chunk.replace("</body>", script)`: only the first occurrence. */
  function InjectClickHandler(text: string, t: ScriptTemplate, prefix: string): (r: string)
    ensures IndexOf(text, "</body>").None? ==> r == text
    ensures IndexOf(text, "</body>").Some? ==>
      var i := IndexOf(text, "</body>").value;
      |r| == |text| - 7 + |ClickScript(t, prefix)| &&
      r[..i] == text[..i] && r[i..] == ClickScript(t, prefix) + text[i + 7..]
  {
    ReplaceFirst(text, "</body>", ClickScript(t, prefix))
  }

  // ---------------------------------------------------------------------------------------------
  // The cloak table, the stream and its buffer
  // ---------------------------------------------------------------------------------------------

  /** The module-level `urlMapping`: one table shared by every prefixer and every stream. */
  class CloakTable {
    var entries: map<string, string>

    constructor ()
      ensures entries == map[]
    {
      entries := map[];
    }

    /** `rewriteUrls(chunk, uri, prefix)`, whose replacement callback records into this table. */
    method Rewrite(chunk: string, prefix: string, mode: Cloaking, hash: Hasher) returns (out: string)
      modifies this
      ensures var r := RewriteUrls(chunk, prefix, mode, hash, old(entries));
        out == r.text && entries == r.table
    {
      var r := RewriteUrls(chunk, prefix, mode, hash, entries);
      entries := r.table;
      out := r.text;
    }
  }

  /** What `createStream` returns: a transform with a `chunk_remainder` buffer. An absent
      remainder is the empty string; every remainder that is set is non-empty. */
  class PrefixStream {
    const prefix: string
    const mode: Cloaking
    const hash: Hasher
    const table: CloakTable
    /** The click handler the stream injects. */
    const script: ScriptTemplate
    var remainder: string
    /** All text received so far, and all text handed on to `rewriteUrls`. */
    ghost var consumed: string
    ghost var released: string

    ghost predicate Valid()
      reads this
    {
      released + remainder == consumed
    }

    constructor (prefix: string, mode: Cloaking, hash: Hasher, table: CloakTable)
      ensures this.prefix == prefix && this.mode == mode && this.hash == hash && this.table == table
      ensures script == ClickHandler
      ensures remainder == [] && consumed == [] && released == []
      ensures Valid()
    {
      this.prefix, this.mode, this.hash, this.table := prefix, mode, hash, table;
      script := ClickHandler;
      remainder, consumed, released := [], [], [];
    }

    /** `transform(chunk)`: prepend the remainder, hold back a partial tail, rewrite the rest and
        inject the click handler; the text pushed downstream is `out`. */
    method Transform(chunk: string) returns (out: string)
      requires Valid()
      modifies this, table
      ensures Valid()
      ensures consumed == old(consumed) + chunk
      ensures var c := CutPartial(old(remainder) + chunk);
        var r := RewriteUrls(c.kept, prefix, mode, hash, old(table.entries));
        remainder == c.withheld && released == old(released) + c.kept &&
        table.entries == r.table && out == InjectClickHandler(r.text, script, prefix)
    {
      var text := chunk;
      if remainder != [] {
        text := remainder + chunk;
        remainder := [];
      }
      assert text == old(remainder) + chunk;
      var cut := CutPartial(text);
      Rebuffer(released, old(remainder), consumed, chunk, cut.kept, cut.withheld);
      text, remainder := cut.kept, cut.withheld;
      consumed := consumed + chunk;
      released := released + text;
      out := table.Rewrite(text, prefix, mode, hash);
      out := InjectClickHandler(out, script, prefix);
    }

    /** `flush()`: rewrite and push whatever is still held back; nothing is pushed otherwise. */
    method Flush() returns (out: Option<string>)
      requires Valid()
      modifies this, table
      ensures Valid() && remainder == [] && released == consumed && consumed == old(consumed)
      ensures old(remainder) == [] ==> out == None && table.entries == old(table.entries)
      ensures old(remainder) != [] ==>
        var r := RewriteUrls(old(remainder), prefix, mode, hash, old(table.entries));
        out == Some(r.text) && table.entries == r.table
    {
      out := None;
      if remainder != [] {
        var text := table.Rewrite(remainder, prefix, mode, hash);
        out := Some(text);
        released := released + remainder;
        remainder := [];
      }
    }
  }

  /** The texts a stream hands to `rewriteUrls` for a run of chunks, starting from remainder
      `rem`, and the remainder left at the end. */
  function Released(rem: string, chunks: seq<string>): (r: (seq<string>, string))
    ensures |r.0| == |chunks|
    decreases |chunks|
  {
    if chunks == [] then ([], rem)
    else
      var c := CutPartial(rem + chunks[0]);
      var rest := Released(c.withheld, chunks[1..]);
      ([c.kept] + rest.0, rest.1)
  }

  function Concat(ts: seq<string>): string {
    if ts == [] then [] else ts[0] + Concat(ts[1..])
  }

  /** Buffering loses and repeats nothing: what was handed on, followed by what is still held
      back (and is handed on at `flush`), is exactly the remainder and the chunks, in order. */
  lemma {:induction false} StreamLossless(rem: string, chunks: seq<string>)
    ensures var r := Released(rem, chunks); Concat(r.0) + r.1 == rem + Concat(chunks)
    decreases |chunks|
  {
    if chunks != [] {
      var c := CutPartial(rem + chunks[0]);
      var rest := Released(c.withheld, chunks[1..]);
      StreamLossless(c.withheld, chunks[1..]);
      assert Concat([c.kept] + rest.0) == c.kept + Concat(rest.0) by {
        assert ([c.kept] + rest.0)[1..] == rest.0;
      }
      Regroup(c.kept, Concat(rest.0), rest.1, c.withheld, Concat(chunks[1..]), rem, chunks[0]);
    }
  }

  lemma Rebuffer(released: string, rem: string, consumed: string, chunk: string, kept: string, withheld: string)
    requires released + rem == consumed && kept + withheld == rem + chunk
    ensures (released + kept) + withheld == consumed + chunk
  {
    calc {
      (released + kept) + withheld;
      released + (kept + withheld);
      released + (rem + chunk);
      (released + rem) + chunk;
    }
  }

  lemma Regroup(k: string, a: string, b: string, w: string, tail: string, rem: string, head: string)
    requires a + b == w + tail && k + w == rem + head
    ensures (k + a) + b == rem + (head + tail)
  {
    calc {
      (k + a) + b;
      k + (a + b);
      k + (w + tail);
      (k + w) + tail;
      (rem + head) + tail;
    }
  }

  /** `urlPrefixer(config)`: the prefixer of one configuration, sharing the module-level table. */
  class Prefixer {
    const prefix: string
    const mode: Cloaking
    const hash: Hasher
    const table: CloakTable

    constructor (prefix: string, mode: Cloaking, hash: Hasher, table: CloakTable)
      ensures this.prefix == prefix && this.mode == mode && this.hash == hash && this.table == table
    {
      this.prefix, this.mode, this.hash, this.table := prefix, mode, hash, table;
    }

    method CreateStream() returns (stream: PrefixStream)
      ensures fresh(stream) && stream.Valid() && stream.remainder == []
      ensures stream.prefix == prefix && stream.mode == mode && stream.hash == hash && stream.table == table
    {
      stream := new PrefixStream(prefix, mode, hash, table);
    }

    /** `prefixUrls(data)`: installs a stream only when the response should be processed. The URL
        is parsed against a fallback base; a URL that fails even then throws. */
    method PrefixUrls(shouldProcess: bool, url: string, parse: UrlParser)
      returns (stream: PrefixStream?, thrown: bool)
      ensures !shouldProcess ==> stream == null && !thrown
      ensures shouldProcess && parse(url).None? ==> stream == null && thrown
      ensures shouldProcess && parse(url).Some? ==>
        !thrown && stream != null && fresh(stream) && stream.Valid() && stream.remainder == [] &&
        stream.prefix == prefix && stream.mode == mode && stream.hash == hash && stream.table == table
    {
      stream, thrown := null, false;
      if shouldProcess {
        if parse(url).None? {
          thrown := true;
        } else {
          stream := CreateStream();
        }
      }
    }
  }
}
