/**
 * The functions of Go's `strings` package that the oEmbed client calls:
 * `Replace` with n = -1, `IndexRune`, `Trim` and `TrimRight` with a cut set.
 * Go strings are byte strings; here a string is a sequence of characters,
 * which agrees with Go for the ASCII text these calls work on.
 */
module Strings {
  import opened Wrappers

  predicate HasPrefix(s: string, p: string) {
    |p| <= |s| && s[..|p|] == p
  }

  /** `p` occurs somewhere in `s`. */
  predicate Contains(s: string, p: string) {
    exists i :: 0 <= i <= |s| && HasPrefix(s[i..], p)
  }

  /**
   * strings.Replace(s, pat, rep, -1) for a non-empty `pat`: every leftmost,
   * non-overlapping occurrence of `pat`, scanning left to right, is replaced by `rep`.
   */
  function ReplaceAll(s: string, pat: string, rep: string): string
    requires |pat| > 0
    decreases |s|
  {
    if |s| < |pat| then s
    else if s[..|pat|] == pat then rep + ReplaceAll(s[|pat|..], pat, rep)
    else [s[0]] + ReplaceAll(s[1..], pat, rep)
  }

  /** Replacing an absent pattern leaves the string as it was. */
  lemma {:induction false} ReplaceAllAbsent(s: string, pat: string, rep: string)
    requires |pat| > 0 && !Contains(s, pat)
    ensures ReplaceAll(s, pat, rep) == s
    decreases |s|
  {
    if |s| >= |pat| {
      assert s[0..] == s;
      assert !HasPrefix(s[0..], pat);
      forall i | 0 <= i <= |s[1..]|
        ensures !HasPrefix(s[1..][i..], pat)
      {
        assert s[1..][i..] == s[i + 1..];
      }
      ReplaceAllAbsent(s[1..], pat, rep);
      assert s == [s[0]] + s[1..];
    }
  }

  /** A pattern holding a character that `s` lacks does not occur in `s`. */
  lemma MissingCharNotContained(s: string, pat: string, c: char)
    requires c in pat && c !in s
    ensures !Contains(s, pat)
  {
    var m :| 0 <= m < |pat| && pat[m] == c;
    forall i | 0 <= i <= |s|
      ensures !HasPrefix(s[i..], pat)
    {
      if i + m < |s| {
        assert s[i..][m] == s[i + m];
      }
    }
  }

  /** A prefix that cannot start the pattern passes through ReplaceAll untouched. */
  lemma {:induction false} ReplaceAllPrefix(p: string, t: string, pat: string, rep: string)
    requires |pat| > 0 && pat[0] !in p
    ensures ReplaceAll(p + t, pat, rep) == p + ReplaceAll(t, pat, rep)
    decreases |p|
  {
    if p == [] {
      assert p + t == t;
    } else if |p + t| < |pat| {
      assert ReplaceAll(t, pat, rep) == t;
    } else {
      var s := p + t;
      assert s[..|pat|][0] == p[0];
      assert s[1..] == p[1..] + t;
      ReplaceAllPrefix(p[1..], t, pat, rep);
      assert [p[0]] + p[1..] == p;
    }
  }

  /** A character outside the pattern and the replacement occurs in the result exactly when it occurs in the input. */
  lemma {:induction false} ReplaceAllKeepsChar(s: string, pat: string, rep: string, c: char)
    requires |pat| > 0 && c !in pat && c !in rep
    ensures c in ReplaceAll(s, pat, rep) <==> c in s
    decreases |s|
  {
    if |s| >= |pat| {
      if s[..|pat|] == pat {
        ReplaceAllKeepsChar(s[|pat|..], pat, rep, c);
        assert s == pat + s[|pat|..];
      } else {
        ReplaceAllKeepsChar(s[1..], pat, rep, c);
        assert s == [s[0]] + s[1..];
      }
    }
  }

  /** One step of ReplaceAll with a one-character pattern. */
  lemma ReplaceCharCons(c: char, t: string, q: char, rep: string)
    ensures ReplaceAll([c] + t, [q], rep) == (if c == q then rep else [c]) + ReplaceAll(t, [q], rep)
  {
    assert ([c] + t)[..1] == [c];
    assert ([c] + t)[1..] == t;
  }

  /** A one-character pattern that the replacement does not contain is gone from the result. */
  lemma {:induction false} ReplaceCharGone(s: string, q: char, rep: string)
    requires q !in rep
    ensures q !in ReplaceAll(s, [q], rep)
    decreases |s|
  {
    if s != [] {
      ReplaceCharCons(s[0], s[1..], q, rep);
      assert s == [s[0]] + s[1..];
      ReplaceCharGone(s[1..], q, rep);
    }
  }

  /** A prefix free of the one-character pattern passes through ReplaceAll untouched. */
  lemma {:induction false} ReplaceCharPrefix(p: string, t: string, q: char, rep: string)
    requires q !in p
    ensures ReplaceAll(p + t, [q], rep) == p + ReplaceAll(t, [q], rep)
    decreases |p|
  {
    if p != [] {
      assert p == [p[0]] + p[1..];
      assert q !in p[1..] && p[0] != q;
      calc {
        ReplaceAll(p + t, [q], rep);
        { assert p + t == [p[0]] + (p[1..] + t); }
        ReplaceAll([p[0]] + (p[1..] + t), [q], rep);
        { ReplaceCharCons(p[0], p[1..] + t, q, rep); }
        [p[0]] + ReplaceAll(p[1..] + t, [q], rep);
        { ReplaceCharPrefix(p[1..], t, q, rep); }
        [p[0]] + (p[1..] + ReplaceAll(t, [q], rep));
        ([p[0]] + p[1..]) + ReplaceAll(t, [q], rep);
        p + ReplaceAll(t, [q], rep);
      }
    } else {
      assert p + t == t;
    }
  }

  /** Replacing a one-character pattern that does not occur is the identity. */
  lemma {:induction false} ReplaceCharAbsent(s: string, q: char, rep: string)
    requires q !in s
    ensures ReplaceAll(s, [q], rep) == s
  {
    ReplaceCharPrefix(s, [], q, rep);
    assert s + [] == s;
  }

  /** The first index at or after `i` holding `c`, as strings.IndexRune scans. */
  function IndexFrom(s: string, c: char, i: nat): (r: Option<nat>)
    requires i <= |s|
    ensures r.Some? ==> i <= r.value < |s| && s[r.value] == c
    ensures r.Some? ==> forall m :: i <= m < r.value ==> s[m] != c
    ensures r.None? ==> forall m :: i <= m < |s| ==> s[m] != c
    decreases |s| - i
  {
    if i == |s| then None
    else if s[i] == c then Some(i)
    else IndexFrom(s, c, i + 1)
  }

  /** strings.IndexRune, with Go's -1 written as None. */
  function IndexRune(s: string, c: char): (r: Option<nat>)
    ensures r.None? <==> c !in s
    ensures r.Some? ==> r.value < |s| && s[r.value] == c && c !in s[..r.value]
  {
    IndexFrom(s, c, 0)
  }

  /** strings.TrimLeft(s, cut): drops every leading character that is in `cut`. */
  function TrimLeft(s: string, cut: set<char>): string
    decreases |s|
  {
    if s == [] || s[0] !in cut then s else TrimLeft(s[1..], cut)
  }

  /** strings.TrimRight(s, cut): drops every trailing character that is in `cut`. */
  function TrimRight(s: string, cut: set<char>): string
    decreases |s|
  {
    if s == [] || s[|s| - 1] !in cut then s else TrimRight(s[..|s| - 1], cut)
  }

  /** TrimLeft keeps a suffix of its input that does not start with a cut character, and drops only cut characters. */
  lemma {:induction false} TrimLeftSpec(s: string, cut: set<char>)
    ensures var r := TrimLeft(s, cut);
      && |r| <= |s| && r == s[|s| - |r|..]
      && (r == [] || r[0] !in cut)
      && forall i :: 0 <= i < |s| - |r| ==> s[i] in cut
    decreases |s|
  {
    if s != [] && s[0] in cut {
      TrimLeftSpec(s[1..], cut);
      var r := TrimLeft(s[1..], cut);
      assert s[1..][|s| - 1 - |r|..] == s[|s| - |r|..];
      forall i | 1 <= i < |s| - |r|
        ensures s[i] in cut
      {
        assert s[1..][i - 1] == s[i];
      }
    }
  }

  /** TrimRight keeps a prefix of its input that does not end with a cut character, and drops only cut characters. */
  lemma {:induction false} TrimRightSpec(s: string, cut: set<char>)
    ensures var r := TrimRight(s, cut);
      && |r| <= |s| && r == s[..|r|]
      && (r == [] || r[|r| - 1] !in cut)
      && forall i :: |r| <= i < |s| ==> s[i] in cut
    decreases |s|
  {
    if s != [] && s[|s| - 1] in cut {
      TrimRightSpec(s[..|s| - 1], cut);
      var r := TrimRight(s[..|s| - 1], cut);
      assert s[..|s| - 1][..|r|] == s[..|r|];
    }
  }

  /** strings.Trim(s, cut), which Go computes as TrimLeft(TrimRight(s)). */
  function Trim(s: string, cut: set<char>): string {
    TrimLeft(TrimRight(s, cut), cut)
  }

  predicate AllIn(s: string, cut: set<char>) {
    forall i :: 0 <= i < |s| ==> s[i] in cut
  }

  lemma {:induction false} TrimRightAppendCut(s: string, suf: string, cut: set<char>)
    requires AllIn(suf, cut)
    ensures TrimRight(s + suf, cut) == TrimRight(s, cut)
    decreases |suf|
  {
    if suf != [] {
      var st := s + suf;
      assert st[|st| - 1] == suf[|suf| - 1] && suf[|suf| - 1] in cut;
      assert st[..|st| - 1] == s + suf[..|suf| - 1];
      assert TrimRight(st, cut) == TrimRight(st[..|st| - 1], cut);
      assert AllIn(suf[..|suf| - 1], cut);
      TrimRightAppendCut(s, suf[..|suf| - 1], cut);
    }
    else {
      assert s + suf == s;
    }
  }

  lemma {:induction false} TrimRightPrependCut(pre: string, s: string, cut: set<char>)
    requires AllIn(pre, cut)
    ensures TrimRight(pre + s, cut) == if TrimRight(s, cut) == [] then [] else pre + TrimRight(s, cut)
    decreases |s|
  {
    if s == [] {
      assert pre + s == [] + pre;
      TrimRightAppendCut([], pre, cut);
    } else if s[|s| - 1] !in cut {
      assert (pre + s)[|pre + s| - 1] == s[|s| - 1];
    } else {
      assert (pre + s)[|pre + s| - 1] == s[|s| - 1];
      assert (pre + s)[..|pre + s| - 1] == pre + s[..|s| - 1];
      TrimRightPrependCut(pre, s[..|s| - 1], cut);
    }
  }

  lemma {:induction false} TrimLeftPrependCut(pre: string, s: string, cut: set<char>)
    requires AllIn(pre, cut)
    ensures TrimLeft(pre + s, cut) == TrimLeft(s, cut)
    decreases |pre|
  {
    if pre != [] {
      assert (pre + s)[0] == pre[0] && pre[0] in cut;
      assert (pre + s)[1..] == pre[1..] + s;
      assert TrimLeft(pre + s, cut) == TrimLeft(pre[1..] + s, cut);
      assert AllIn(pre[1..], cut);
      TrimLeftPrependCut(pre[1..], s, cut);
    } else {
      assert pre + s == s;
    }
  }

  /** Adding characters of the cut set at either end does not change what Trim returns. */
  lemma TrimIgnoresCutAtEnds(pre: string, s: string, suf: string, cut: set<char>)
    requires AllIn(pre, cut) && AllIn(suf, cut)
    ensures Trim(pre + s + suf, cut) == Trim(s, cut)
  {
    TrimRightAppendCut(pre + s, suf, cut);
    TrimRightPrependCut(pre, s, cut);
    if TrimRight(s, cut) != [] {
      TrimLeftPrependCut(pre, TrimRight(s, cut), cut);
    }
  }
}
