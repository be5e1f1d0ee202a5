/**
 * convertSchemaURL2Regexp (oembed/oembed.go:224-240): the rewrite of a
 * provider's URL scheme, a glob with `*` wildcards, into the source text of an
 * anchored regular expression. The four regular expressions su2re1..su2re4 of
 * oembed/oembed.go:17-20 are written out here as the string functions they
 * compute: each of su2re1..su2re3 is anchored at both ends, so it matches at
 * most once, and the lazy groups pick the first `*` that fits. The steps run in
 * sequence, each on the previous one's output. Compiling the result is a
 * parameter `compiles`; a failure there is Go's panic, returned as an error.
 */
module Patterns {
  import opened Wrappers
  import opened Strings

  /** Length of the `https://` or `http://` prefix that su2re1..su2re3 require; 0 without one. */
  function SchemeLength(s: string): (n: nat)
    ensures n == 0 || n == 7 || n == 8
    ensures n == 8 <==> HasPrefix(s, "https://")
    ensures n == 7 <==> HasPrefix(s, "http://")
    ensures n <= |s|
  {
    if HasPrefix(s, "https://") then
      assert s[..7][4] == s[..8][4] == 's';
      8
    else if HasPrefix(s, "http://") then 7 else 0
  }

  predicate NoSlash(s: string, i: nat, k: nat)
    requires i <= k <= |s|
  {
    forall m :: i <= m < k ==> s[m] != '/'
  }

  /**
   * su2re1 `^(https?://[^/]*?)\*(.+)$` can take the `*` at index k: k lies
   * after the scheme prefix, no `/` comes between them, and k is not last.
   */
  predicate HostStarAt(s: string, k: nat) {
    var n := SchemeLength(s);
    0 < n <= k < |s| - 1 && s[k] == '*' && NoSlash(s, n, k)
  }

  /**
   * su2re2 `^(https?://[^/]*?/.*?)\*(.+)$` can take the `*` at index k: k lies
   * after the scheme prefix, some `/` comes between them, and k is not last.
   */
  predicate PathStarAt(s: string, k: nat) {
    var n := SchemeLength(s);
    0 < n <= k < |s| - 1 && s[k] == '*' && !NoSlash(s, n, k)
  }

  /** The first `*` at or after i, before the last index, with no `/` in between. */
  function HostStarFrom(s: string, i: nat): (r: Option<nat>)
    requires i <= |s|
    ensures r.Some? ==> i <= r.value < |s| - 1 && s[r.value] == '*' && NoSlash(s, i, r.value)
    ensures r.Some? ==> forall m :: i <= m < r.value ==> s[m] != '*'
    ensures r.None? ==> forall k :: i <= k < |s| - 1 && s[k] == '*' ==> !NoSlash(s, i, k)
    decreases |s| - i
  {
    if i + 1 >= |s| then None
    else if s[i] == '/' then None
    else if s[i] == '*' then Some(i)
    else HostStarFrom(s, i + 1)
  }

  /** The first `*` at or after i that is not the last character. */
  function StarFrom(s: string, i: nat): (r: Option<nat>)
    requires i <= |s|
    ensures r.Some? ==> i <= r.value < |s| - 1 && s[r.value] == '*'
    ensures r.Some? ==> forall m :: i <= m < r.value ==> s[m] != '*'
    ensures r.None? ==> forall k :: i <= k < |s| - 1 ==> s[k] != '*'
    decreases |s| - i
  {
    if i + 1 >= |s| then None
    else if s[i] == '*' then Some(i)
    else StarFrom(s, i + 1)
  }

  /** The `*` that su2re1 replaces: the least index it can take, if any. */
  function HostStar(s: string): (r: Option<nat>)
    ensures r.Some? ==> HostStarAt(s, r.value) && forall j :: 0 <= j < r.value ==> !HostStarAt(s, j)
    ensures r.None? ==> forall k :: !HostStarAt(s, k)
  {
    var n := SchemeLength(s);
    if n == 0 then None else HostStarFrom(s, n)
  }

  /** The `*` that su2re2 replaces: the first one, not last, after the first `/` past the scheme prefix. */
  function PathStar(s: string): (r: Option<nat>)
    ensures r.Some? ==> PathStarAt(s, r.value) && forall j :: 0 <= j < r.value ==> !PathStarAt(s, j)
    ensures r.None? ==> forall k :: !PathStarAt(s, k)
  {
    var n := SchemeLength(s);
    if n == 0 then None
    else
      match IndexFrom(s, '/', n)
      case None => None
      case Some(j) => StarFrom(s, j + 1)
  }

  /** Line 226: every `?` becomes `\?`. */
  function EscapeQuestionMarks(s: string): string {
    ReplaceAll(s, "?", "\\?")
  }

  /** Line 227, su2re1 with replacement `${1}[^/]%?${2}`. */
  function SubdomainWildcard(s: string): string {
    match HostStar(s)
    case None => s
    case Some(k) => s[..k] + "[^/]%?" + s[k + 1..]
  }

  /** Line 228, su2re2 with replacement `${1}.%?${2}`. */
  function PathWildcard(s: string): string {
    match PathStar(s)
    case None => s
    case Some(k) => s[..k] + ".%?" + s[k + 1..]
  }

  /** Line 229, su2re3 `^(https?://.*?)\*$` with replacement `${1}.%`: a final `*` after the prefix. */
  function SuffixWildcard(s: string): string {
    var n := SchemeLength(s);
    if 0 < n < |s| && s[|s| - 1] == '*' then s[..|s| - 1] + ".%" else s
  }

  /** Line 230, su2re4 `^http://` with replacement `https?://`. */
  function WidenHttp(s: string): string {
    if HasPrefix(s, "http://") then "https?://" + s[7..] else s
  }

  /** Lines 226-231: the scheme after all six rewriting steps, in order. */
  function Rewritten(s: string): string {
    ReplaceAll(WidenHttp(SuffixWildcard(PathWildcard(SubdomainWildcard(EscapeQuestionMarks(s))))), "%", "*")
  }

  /** Line 233: the source text handed to regexp.Compile. */
  function SchemePattern(s: string): string {
    "^" + Rewritten(s) + "$"
  }

  /**
   * convertSchemaURL2Regexp: rewrite `url` one step at a time, then compile
   * the anchored pattern; a compile failure (Go's panic) is returned as Err
   * carrying the pattern text.
   */
  method ConvertSchemaURL2Regexp(url: string, compiles: string -> bool) returns (r: Result<string, string>)
    ensures compiles(SchemePattern(url)) <==> r.Ok?
    ensures r.Ok? ==> r.value == SchemePattern(url)
    ensures r.Err? ==> r.error == SchemePattern(url)
  {
    var u := ReplaceAll(url, "?", "\\?");
    u := SubdomainWildcard(u);
    u := PathWildcard(u);
    u := SuffixWildcard(u);
    u := WidenHttp(u);
    u := ReplaceAll(u, "%", "*");
    var pattern := "^" + u + "$";
    if !compiles(pattern) {
      return Err(pattern);
    }
    return Ok(pattern);
  }

  // ---------------------------------------------------------------- escaping

  /** One step of EscapeQuestionMarks. */
  lemma EscapeCons(c: char, t: string)
    ensures EscapeQuestionMarks([c] + t) == (if c == '?' then "\\?" else [c]) + EscapeQuestionMarks(t)
  {
    ReplaceCharCons(c, t, '?', "\\?");
  }

  /** The escaped text never starts with a bare `?`. */
  lemma EscapeHead(t: string)
    ensures EscapeQuestionMarks(t) == [] || EscapeQuestionMarks(t)[0] != '?'
  {
    if t != [] {
      assert t == [t[0]] + t[1..];
      EscapeCons(t[0], t[1..]);
    }
  }

  /**
   * Every `?` of the input survives as `\?`: undoing the escape (replacing
   * each `\?` by `?`) gives back the input, and no `?` is left without a
   * backslash in front of it.
   */
  lemma {:induction false} EscapeQuestionMarksRoundTrip(s: string)
    ensures ReplaceAll(EscapeQuestionMarks(s), "\\?", "?") == s
    ensures forall i :: 0 <= i < |EscapeQuestionMarks(s)| && EscapeQuestionMarks(s)[i] == '?' ==>
      i > 0 && EscapeQuestionMarks(s)[i - 1] == '\\'
    decreases |s|
  {
    if s != [] {
      var c, t := s[0], s[1..];
      assert s == [c] + t;
      EscapeCons(c, t);
      EscapeQuestionMarksRoundTrip(t);
      var et := EscapeQuestionMarks(t);
      var e := EscapeQuestionMarks(s);
      if c == '?' {
        assert e == "\\?" + et;
        assert e[..2] == "\\?" && e[2..] == et;
        assert ReplaceAll(e, "\\?", "?") == "?" + ReplaceAll(et, "\\?", "?");
        forall i | 0 <= i < |e| && e[i] == '?'
          ensures i > 0 && e[i - 1] == '\\'
        {
          if i >= 2 {
            assert e[i] == et[i - 2];
            if i >= 3 {
              assert e[i - 1] == et[i - 3];
            } else {
              EscapeHead(t);
            }
          }
        }
      } else {
        assert e == [c] + et;
        EscapeHead(t);
        if |e| >= 2 {
          assert e[..2] != "\\?" by {
            assert e[1] == et[0];
          }
        }
        assert e[1..] == et;
        assert ReplaceAll(e, "\\?", "?") == [c] + ReplaceAll(et, "\\?", "?");
        forall i | 0 <= i < |e| && e[i] == '?'
          ensures i > 0 && e[i - 1] == '\\'
        {
          assert i >= 1;
          assert e[i] == et[i - 1];
          if i >= 2 {
            assert e[i - 1] == et[i - 2];
          } else {
            EscapeHead(t);
          }
        }
      }
    }
  }

  /** Escaping leaves a prefix free of `?` and `\` recognisable exactly when it was there before. */
  lemma {:induction false} EscapeKeepsPrefixTest(s: string, p: string)
    requires '?' !in p && '\\' !in p
    ensures HasPrefix(EscapeQuestionMarks(s), p) <==> HasPrefix(s, p)
    decreases |s|
  {
    if p != [] && s != [] {
      var c, t := s[0], s[1..];
      assert s == [c] + t;
      EscapeCons(c, t);
      var e := EscapeQuestionMarks(s);
      if c == '?' {
        assert e[0] == '\\' && p[0] != '\\' && p[0] != '?';
      } else {
        assert '?' !in p[1..] && '\\' !in p[1..];
        EscapeKeepsPrefixTest(t, p[1..]);
        assert e == [c] + EscapeQuestionMarks(t);
        assert HasPrefix(e, p) <==> c == p[0] && HasPrefix(EscapeQuestionMarks(t), p[1..]);
        assert HasPrefix(s, p) <==> c == p[0] && HasPrefix(t, p[1..]);
      }
    }
  }

  // ------------------------------------------------------------ scheme prefix

  /** su2re1 only acts after the scheme prefix, which it leaves in place. */
  lemma SubdomainStepKeepsPrefix(x: string, p: string)
    requires p == "http://" || p == "https://"
    requires HasPrefix(x, p)
    ensures HasPrefix(SubdomainWildcard(x), p)
  {
    match HostStar(x) {
      case None =>
      case Some(k) =>
        assert (x[..k] + "[^/]%?" + x[k + 1..])[..|p|] == x[..|p|];
    }
  }

  /** su2re2 only acts after the scheme prefix, which it leaves in place. */
  lemma PathStepKeepsPrefix(x: string, p: string)
    requires p == "http://" || p == "https://"
    requires HasPrefix(x, p)
    ensures HasPrefix(PathWildcard(x), p)
  {
    match PathStar(x) {
      case None =>
      case Some(k) =>
        assert (x[..k] + ".%?" + x[k + 1..])[..|p|] == x[..|p|];
    }
  }

  /** su2re3 only acts after the scheme prefix, which it leaves in place. */
  lemma SuffixStepKeepsPrefix(x: string, p: string)
    requires p == "http://" || p == "https://"
    requires HasPrefix(x, p)
    ensures HasPrefix(SuffixWildcard(x), p)
  {
    assert SchemeLength(x) == |p|;
    if |p| < |x| && x[|x| - 1] == '*' {
      assert (x[..|x| - 1] + ".%")[..|p|] == x[..|p|];
    }
  }

  /** The first four steps keep an `http://` or `https://` prefix. */
  lemma WildcardStepsKeepPrefix(s: string, p: string)
    requires p == "http://" || p == "https://"
    requires HasPrefix(s, p)
    ensures HasPrefix(SuffixWildcard(PathWildcard(SubdomainWildcard(EscapeQuestionMarks(s)))), p)
  {
    EscapeKeepsPrefixTest(s, p);
    var x1 := EscapeQuestionMarks(s);
    SubdomainStepKeepsPrefix(x1, p);
    var x2 := SubdomainWildcard(x1);
    PathStepKeepsPrefix(x2, p);
    SuffixStepKeepsPrefix(PathWildcard(x2), p);
  }

  /** The last step never touches a prefix without `%`. */
  lemma PercentStepKeepsPrefix(x: string, p: string)
    requires '%' !in p && HasPrefix(x, p)
    ensures HasPrefix(ReplaceAll(x, "%", "*"), p)
  {
    assert x == p + x[|p|..];
    ReplaceCharPrefix(p, x[|p|..], '%', "*");
  }

  /** A scheme declared with `http://` accepts both schemes: its pattern starts `^https?://`. */
  lemma HttpWidened(s: string)
    requires HasPrefix(s, "http://")
    ensures HasPrefix(Rewritten(s), "https?://")
  {
    var x4 := SuffixWildcard(PathWildcard(SubdomainWildcard(EscapeQuestionMarks(s))));
    WildcardStepsKeepPrefix(s, "http://");
    assert WidenHttp(x4) == "https?://" + x4[7..];
    PercentStepKeepsPrefix(WidenHttp(x4), "https?://");
  }

  /** A scheme declared with `https://` is never widened. */
  lemma HttpsKept(s: string)
    requires HasPrefix(s, "https://")
    ensures HasPrefix(Rewritten(s), "https://") && !HasPrefix(Rewritten(s), "https?://")
  {
    hide EscapeQuestionMarks, SubdomainWildcard, PathWildcard, SuffixWildcard, WidenHttp, ReplaceAll;
    var x4 := SuffixWildcard(PathWildcard(SubdomainWildcard(EscapeQuestionMarks(s))));
    WildcardStepsKeepPrefix(s, "https://");
    HttpsNotWidened(x4);
    PercentStepKeepsPrefix(x4, "https://");
    var r := Rewritten(s);
    assert r[..8][5] == ':';
  }

  /** su2re4 leaves an `https://` scheme alone. */
  lemma HttpsNotWidened(x: string)
    requires HasPrefix(x, "https://")
    ensures WidenHttp(x) == x
  {
    assert SchemeLength(x) == 8;
  }

  // ------------------------------------------------------------ what is left

  /** Every `%` is turned into `*` at the end, including any the scheme itself contained. */
  lemma NoPercentLeft(s: string)
    ensures '%' !in Rewritten(s)
    ensures SchemePattern(s) == "^" + Rewritten(s) + "$"
  {
    ReplaceCharGone(WidenHttp(SuffixWildcard(PathWildcard(SubdomainWildcard(EscapeQuestionMarks(s))))), '%', "*");
  }

  /**
   * A scheme without `*` or `%` goes through only the two rewrites that always
   * apply: each `?` is escaped as `\?`, and a leading `http://` is widened.
   * Nothing else is escaped, so characters such as `.`, `+`, `(` or `[` keep
   * their regular-expression meaning in the pattern.
   */
  lemma PlainScheme(s: string)
    requires '*' !in s && '%' !in s
    ensures Rewritten(s) == WidenHttp(EscapeQuestionMarks(s))
    ensures !HasPrefix(s, "http://") ==> SchemePattern(s) == "^" + EscapeQuestionMarks(s) + "$"
  {
    var e := EscapeQuestionMarks(s);
    ReplaceAllKeepsChar(s, "?", "\\?", '*');
    ReplaceAllKeepsChar(s, "?", "\\?", '%');
    assert HostStar(e).None?;
    assert PathStar(e).None?;
    assert SuffixWildcard(e) == e by {
      if |e| > 0 {
        assert e[|e| - 1] != '*';
      }
    }
    EscapeKeepsPrefixTest(s, "http://");
    var w := WidenHttp(e);
    if HasPrefix(e, "http://") {
      assert '%' !in e[7..];
      assert w == "https?://" + e[7..];
      ReplaceCharPrefix("https?://", e[7..], '%', "*");
      ReplaceCharAbsent(e[7..], '%', "*");
    } else {
      ReplaceCharAbsent(e, '%', "*");
    }
  }

  /** Without an `http://` or `https://` prefix, only the `?` escaping and the `%` rewrite apply. */
  lemma NonHttpScheme(s: string)
    requires SchemeLength(s) == 0
    ensures Rewritten(s) == ReplaceAll(EscapeQuestionMarks(s), "%", "*")
  {
    EscapeKeepsPrefixTest(s, "http://");
    EscapeKeepsPrefixTest(s, "https://");
    assert SchemeLength(EscapeQuestionMarks(s)) == 0;
  }

  // ---------------------------------------------------------------- examples

  /** Text with none of the characters the rewrite treats specially. */
  predicate Literal(t: string) {
    '*' !in t && '?' !in t && '%' !in t
  }

  /** su2re1 on a scheme whose first character after the prefix is a `*` that is not last. */
  lemma SubdomainStepAtHost(p: string, t: string)
    requires p == "http://" || p == "https://"
    requires |t| >= 1
    ensures SubdomainWildcard(p + "*" + t) == p + "[^/]%?" + t
  {
    var s := p + "*" + t;
    assert s[..|p|] == p && s[|p|] == '*';
    assert SchemeLength(s) == |p|;
    assert HostStarFrom(s, |p|) == Some(|p|);
    assert s[|p| + 1..] == t;
  }

  /** su2re1 and su2re2 leave alone a string whose only `*`, if any, is its last character. */
  lemma InnerStepsNeedInnerStar(x: string)
    requires forall i :: 0 <= i < |x| - 1 ==> x[i] != '*'
    ensures SubdomainWildcard(x) == x && PathWildcard(x) == x
  {
  }

  /** su2re3 on a string with the scheme prefix and a final `*`. */
  lemma SuffixStepAtEnd(p: string, y: string)
    requires p == "http://" || p == "https://"
    requires HasPrefix(y, p)
    ensures SuffixWildcard(y + "*") == y + ".%"
  {
    var x := y + "*";
    assert x[..|p|] == p;
    assert SchemeLength(x) == |p|;
    assert x[..|x| - 1] == y;
  }

  /** The `%` rewrite passes over a `%`-free prefix and turns the next `%` into `*`. */
  lemma PercentOnce(a: string, c: string)
    requires '%' !in a
    ensures ReplaceAll(a + "%" + c, "%", "*") == a + "*" + ReplaceAll(c, "%", "*")
  {
    assert a + "%" + c == a + ([('%')] + c);
    ReplaceCharPrefix(a, [('%')] + c, '%', "*");
    ReplaceCharCons('%', c, '%', "*");
  }

  /** A string with a `*` only at its end satisfies InnerStepsNeedInnerStar's condition. */
  lemma OnlyFinalStar(y: string)
    requires '*' !in y
    ensures forall i :: 0 <= i < |y + "*"| - 1 ==> (y + "*")[i] != '*'
  {
    forall i | 0 <= i < |y + "*"| - 1
      ensures (y + "*")[i] != '*'
    {
      assert (y + "*")[i] == y[i];
    }
  }

  /** The scheme of SubdomainScheme after su2re1. */
  lemma SubdomainSchemeHost(d: string, q: string)
    ensures SubdomainWildcard("https://*" + d + "/" + q + "*") == ("https://[^/]%?" + d + "/" + q) + "*"
  {
    var t := d + "/" + q + "*";
    assert "https://*" + d + "/" + q + "*" == "https://" + "*" + t;
    SubdomainStepAtHost("https://", t);
    assert "https://" + "[^/]%?" + t == ("https://[^/]%?" + d + "/" + q) + "*";
  }

  /** The scheme of SubdomainScheme after su2re2 and su2re3. */
  lemma SubdomainSchemeSuffix(y: string)
    requires HasPrefix(y, "https://") && '*' !in y
    ensures SuffixWildcard(PathWildcard(y + "*")) == y + ".%"
  {
    OnlyFinalStar(y);
    InnerStepsNeedInnerStar(y + "*");
    SuffixStepAtEnd("https://", y);
  }

  /** The scheme of SubdomainScheme after su2re4 and the `%` rewrite. */
  lemma SubdomainSchemeFinal(d: string, q: string)
    requires Literal(d) && Literal(q)
    ensures ReplaceAll(WidenHttp(("https://[^/]%?" + d + "/" + q) + ".%"), "%", "*") == "https://[^/]*?" + d + "/" + q + ".*"
  {
    var y := "https://[^/]%?" + d + "/" + q;
    assert (y + ".%")[..8] == "https://";
    HttpsNotWidened(y + ".%");
    var b := "?" + d + "/" + q + ".";
    assert y + ".%" == "https://[^/]" + "%" + (b + "%" + "");
    PercentOnce("https://[^/]", b + "%" + "");
    PercentOnce(b, "");
    assert "https://[^/]" + "*" + (b + "*" + "") == "https://[^/]*?" + d + "/" + q + ".*";
  }

  lemma NoQuestionMark(p: string, d: string, q: string)
    requires forall i :: 0 <= i < |p| ==> p[i] != '?'
    requires '?' !in d && '?' !in q
    ensures '?' !in p + d + "/" + q + "*"
  {
  }

  /**
   * A subdomain wildcard and a trailing path wildcard, as in the scheme
   * `https://` `*` `.example.com/` `*`: the host `*` becomes `[^/]*?` and the
   * final `*` becomes `.*`; everything else is kept as written.
   */
  lemma SubdomainScheme(d: string, q: string)
    requires Literal(d) && '/' !in d && Literal(q)
    ensures Rewritten("https://*" + d + "/" + q + "*") == "https://[^/]*?" + d + "/" + q + ".*"
  {
    var s := "https://*" + d + "/" + q + "*";
    NoQuestionMark("https://*", d, q);
    ReplaceCharAbsent(s, '?', "\\?");
    SubdomainSchemeHost(d, q);
    var y := "https://[^/]%?" + d + "/" + q;
    assert y[..8] == "https://";
    SubdomainSchemeSuffix(y);
    SubdomainSchemeFinal(d, q);
  }

  /** su2re1 finds nothing when a `/` comes before any `*`. */
  lemma {:induction false} HostStarBlocked(s: string, i: nat, j: nat)
    requires i <= j < |s| && s[j] == '/'
    requires forall m :: i <= m < j ==> s[m] != '*'
    ensures HostStarFrom(s, i).None?
    decreases j - i
  {
    if i < j && i + 1 < |s| && s[i] != '/' {
      HostStarBlocked(s, i + 1, j);
    }
  }

  /** su2re1 leaves alone a scheme whose first `/` after the prefix comes before its only `*`. */
  lemma PathSchemeHost(p: string, h: string, a: string, b: string)
    requires p == "http://" || p == "https://"
    requires Literal(h) && '/' !in h
    ensures SubdomainWildcard(p + h + "/" + a + "*" + b) == p + h + "/" + a + "*" + b
  {
    var s := p + h + "/" + a + "*" + b;
    var j := |p| + |h|;
    assert s[..|p|] == p && SchemeLength(s) == |p|;
    assert s[j] == '/';
    assert forall m :: |p| <= m < j ==> s[m] == h[m - |p|];
    HostStarBlocked(s, |p|, j);
  }

  /** su2re2 takes the one `*` in the path of such a scheme. */
  lemma PathStarInPath(p: string, h: string, a: string, b: string)
    requires p == "http://" || p == "https://"
    requires '/' !in h && '*' !in a && |b| >= 1
    ensures PathStar(p + h + "/" + a + "*" + b) == Some(|p| + |h| + 1 + |a|)
  {
    var s := p + h + "/" + a + "*" + b;
    var j := |p| + |h|;
    var k := j + 1 + |a|;
    assert SchemeLength(s) == |p| by {
      assert s[..|p|] == p;
    }
    assert IndexFrom(s, '/', |p|) == Some(j) by {
      assert s[j] == '/';
      assert forall m :: |p| <= m < j ==> s[m] == h[m - |p|];
    }
    assert StarFrom(s, j + 1) == Some(k) by {
      assert s[k] == '*' && k < |s| - 1;
      assert forall m :: j < m < k ==> s[m] == a[m - j - 1];
    }
  }

  /** su2re2 on a scheme with one `*` in the path, followed by more text. */
  lemma PathSchemePath(p: string, h: string, a: string, b: string)
    requires p == "http://" || p == "https://"
    requires '/' !in h && '*' !in a && |b| >= 1
    ensures PathWildcard(p + h + "/" + a + "*" + b) == p + h + "/" + a + ".%?" + b
  {
    hide PathStar;
    PathStarInPath(p, h, a, b);
    var x := p + h + "/" + a;
    assert p + h + "/" + a + "*" + b == x + "*" + b;
    assert p + h + "/" + a + ".%?" + b == x + ".%?" + b;
    StarSplit(x, b);
  }

  lemma StarSplit(x: string, b: string)
    ensures var s := x + "*" + b; s[..|x|] == x && s[|x| + 1..] == b
  {
    var s := x + "*" + b;
    assert s[..|x|] == x;
    assert s[|x| + 1..] == b;
  }

  /** su2re3 leaves alone a string that does not end in `*`. */
  lemma SuffixStepNoFinalStar(x: string)
    requires |x| >= 1 && x[|x| - 1] != '*'
    ensures SuffixWildcard(x) == x
  {
  }

  /** The end of PathScheme: su2re4 and the `%` rewrite. */
  lemma PathSchemeFinal(h: string, a: string, b: string)
    requires '%' !in h && '%' !in a && '%' !in b
    ensures ReplaceAll(WidenHttp("http://" + h + "/" + a + ".%?" + b), "%", "*") == "https?://" + h + "/" + a + ".*?" + b
  {
    var x4 := "http://" + h + "/" + a + ".%?" + b;
    assert x4[..7] == "http://";
    var c := h + "/" + a + ".";
    assert WidenHttp(x4) == "https?://" + c + "%" + ("?" + b);
    PercentOnce("https?://" + c, "?" + b);
    ReplaceCharAbsent("?" + b, '%', "*");
  }

  /** Escaping leaves a PathScheme input alone: it has no `?`. */
  lemma PathSchemeEscape(h: string, a: string, b: string)
    requires '?' !in h && '?' !in a && '?' !in b
    ensures EscapeQuestionMarks("http://" + h + "/" + a + "*" + b) == "http://" + h + "/" + a + "*" + b
  {
    var s := "http://" + h + "/" + a + "*" + b;
    assert s == "http://" + (h + ("/" + (a + ("*" + b))));
    assert forall i :: 0 <= i < 7 ==> "http://"[i] != '?';
    ReplaceCharAbsent(s, '?', "\\?");
  }

  /**
   * A path wildcard in the middle of an `http://` scheme: the `*` becomes the
   * lazy `.*?`, and the scheme is widened to `https?://`.
   */
  lemma PathScheme(h: string, a: string, b: string)
    requires Literal(h) && '/' !in h && Literal(a) && Literal(b) && |b| >= 1
    ensures Rewritten("http://" + h + "/" + a + "*" + b) == "https?://" + h + "/" + a + ".*?" + b
  {
    var s := "http://" + h + "/" + a + "*" + b;
    var x3 := "http://" + h + "/" + a + ".%?" + b;
    PathSchemeEscape(h, a, b);
    assert SubdomainWildcard(s) == s by {
      PathSchemeHost("http://", h, a, b);
    }
    assert PathWildcard(s) == x3 by {
      PathSchemePath("http://", h, a, b);
    }
    assert SuffixWildcard(x3) == x3 by {
      assert x3[|x3| - 1] == b[|b| - 1];
      SuffixStepNoFinalStar(x3);
    }
    PathSchemeFinal(h, a, b);
  }

  /** Escaping leaves a TwoHostStars input alone: it has no `?`. */
  lemma TwoHostStarsEscape(d1: string, d2: string)
    requires '?' !in d1 && '?' !in d2
    ensures EscapeQuestionMarks("https://*" + d1 + "*" + d2) == "https://*" + d1 + "*" + d2
  {
    var s := "https://*" + d1 + "*" + d2;
    assert s == "https://*" + (d1 + ("*" + d2));
    assert forall i :: 0 <= i < 9 ==> "https://*"[i] != '?';
    ReplaceCharAbsent(s, '?', "\\?");
  }

  /** The scheme of TwoHostStars after su2re1: only the first `*` is rewritten. */
  lemma TwoHostStarsHost(d1: string, d2: string)
    ensures SubdomainWildcard("https://*" + d1 + "*" + d2) == "https://" + "[^" + "/" + ("]%?" + d1) + "*" + d2
  {
    assert "https://*" + d1 + "*" + d2 == "https://" + "*" + (d1 + "*" + d2);
    SubdomainStepAtHost("https://", d1 + "*" + d2);
    assert "https://" + "[^/]%?" + (d1 + "*" + d2) == "https://" + "[^" + "/" + ("]%?" + d1) + "*" + d2;
  }

  /** su2re3 leaves alone a string that ends in text without `*`. */
  lemma LastCharKept(x: string, d: string)
    requires '*' !in d && |d| >= 1
    ensures SuffixWildcard(x + d) == x + d
  {
    assert (x + d)[|x + d| - 1] == d[|d| - 1];
  }

  /** The end of TwoHostStars: su2re4 and the `%` rewrite. */
  lemma TwoHostStarsFinal(d1: string, d2: string)
    requires '%' !in d1 && '%' !in d2
    ensures ReplaceAll(WidenHttp("https://" + "[^" + "/" + ("]%?" + d1) + ".%?" + d2), "%", "*")
      == "https://[^/]*?" + d1 + ".*?" + d2
  {
    var x := "https://" + "[^" + "/" + ("]%?" + d1) + ".%?" + d2;
    assert x[..8] == "https://";
    HttpsNotWidened(x);
    var c := "?" + d1 + ".";
    assert x == "https://[^/]" + "%" + (c + "%" + ("?" + d2));
    PercentOnce("https://[^/]", c + "%" + ("?" + d2));
    PercentOnce(c, "?" + d2);
    ReplaceCharAbsent("?" + d2, '%', "*");
    assert "https://[^/]" + "*" + (c + "*" + ("?" + d2)) == "https://[^/]*?" + d1 + ".*?" + d2;
  }

  /**
   * A second `*` in the host that is not the scheme's last character: su2re1
   * rewrites only the first one, and su2re2 then takes the second, because the `[^/]` that su2re1 inserted contains a
   * `/`. The second wildcard thus becomes `.*?`, which also matches `/`.
   */
  lemma TwoHostStars(d1: string, d2: string)
    requires Literal(d1) && '/' !in d1 && Literal(d2) && |d2| >= 1
    ensures Rewritten("https://*" + d1 + "*" + d2) == "https://[^/]*?" + d1 + ".*?" + d2
  {
    var s := "https://*" + d1 + "*" + d2;
    TwoHostStarsEscape(d1, d2);
    TwoHostStarsHost(d1, d2);
    PathSchemePath("https://", "[^", "]%?" + d1, d2);
    LastCharKept("https://" + "[^" + "/" + ("]%?" + d1) + ".%?", d2);
    TwoHostStarsFinal(d1, d2);
  }

  /**
   * A second `*` in the host that ends the scheme: su2re2 needs a character
   * after its `*`, so it does not fire, and su2re3 turns the final `*` into
   * `.*` instead.
   */
  lemma TwoHostStarsLast(d1: string)
    requires Literal(d1) && '/' !in d1
    ensures Rewritten("https://*" + d1 + "*") == "https://[^/]*?" + d1 + ".*"
  {
    hide EscapeQuestionMarks, SubdomainWildcard, PathWildcard, SuffixWildcard, WidenHttp, ReplaceAll;
    var s := "https://*" + d1 + "*";
    assert s == "https://*" + d1 + "*" + "";
    TwoHostStarsEscape(d1, "");
    TwoHostStarsHost(d1, "");
    var y := "https://" + "[^" + "/" + ("]%?" + d1);
    var x1 := y + "*";
    assert SubdomainWildcard(s) == x1;
    assert PathWildcard(x1) == x1 by {
      assert '*' !in y;
      OnlyFinalStar(y);
      InnerStepsNeedInnerStar(x1);
    }
    assert SuffixWildcard(x1) == y + ".%" by {
      assert y[..8] == "https://";
      SuffixStepAtEnd("https://", y);
    }
    var w := y + ".%";
    assert WidenHttp(w) == w by {
      assert w[..8] == "https://";
      HttpsNotWidened(w);
    }
    var c := "?" + d1 + ".";
    assert w == "https://[^/]" + "%" + (c + "%" + "");
    PercentOnce("https://[^/]", c + "%" + "");
    PercentOnce(c, "");
    ReplaceCharAbsent("", '%', "*");
    assert ReplaceAll(w, "%", "*") == "https://[^/]" + "*" + (c + "*" + "");
    assert "https://[^/]" + "*" + (c + "*" + "") == "https://[^/]*?" + d1 + ".*";
    assert Rewritten(s) == ReplaceAll(WidenHttp(SuffixWildcard(PathWildcard(SubdomainWildcard(s)))), "%", "*");
  }

  /**
   * The scheme ParseProviders gives an endpoint that lists none, built from an
   * `https://` provider URL without special characters: every URL under the
   * site, the final `*` becoming `.*`.
   */
  lemma SiteWideScheme(y: string)
    requires HasPrefix(y, "https://") && Literal(y)
    ensures Rewritten(y + "/*") == y + "/.*"
  {
    var z := y + "/";
    var x := z + "*";
    var w := z + ".%";
    assert x == y + "/*";
    assert EscapeQuestionMarks(x) == x by {
      assert '?' !in x;
      ReplaceCharAbsent(x, '?', "\\?");
    }
    assert SubdomainWildcard(x) == x && PathWildcard(x) == x by {
      OnlyFinalStar(z);
      InnerStepsNeedInnerStar(x);
    }
    assert SuffixWildcard(x) == w by {
      assert z[..8] == "https://";
      SuffixStepAtEnd("https://", z);
    }
    assert WidenHttp(w) == w by {
      assert w[..8] == "https://";
      HttpsNotWidened(w);
    }
    assert ReplaceAll(w, "%", "*") == y + "/.*" by {
      assert w == (z + ".") + "%" + "";
      PercentOnce(z + ".", "");
      assert (z + ".") + "*" + "" == y + "/.*";
    }
  }
}
