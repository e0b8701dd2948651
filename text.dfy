/**
 * The java.lang.String and java.util.regex behaviour the reconciliation
 * engine relies on, stated over `seq<char>`: character classes, substring
 * search, `split`/`String.join`, `trim`/`stripTrailing`, `replace`, and the
 * span and first-occurrence scanners from which each regular expression of
 * the engine is built.
 */
module Text {
  import opened Wrappers

  // ---------------------------------------------------------------------
  // Character classes
  // ---------------------------------------------------------------------

  /** The regex class `\s` (without UNICODE_CHARACTER_CLASS): [ \t\n\x0B\f\r]. */
  predicate IsSpace(c: char) {
    c == ' ' || c == '\t' || c == '\n' || c == '\U{000B}' || c == '\U{000C}' || c == '\r'
  }

  /** What `String.trim` removes: every char up to and including U+0020. */
  predicate IsTrimmable(c: char) {
    c <= ' '
  }

  /** `Character.isWhitespace` (what `stripTrailing` removes) on the chars below U+0080. */
  predicate IsJavaWhitespace(c: char) {
    IsSpace(c) || ('\U{001C}' <= c <= '\U{001F}')
  }

  /** The line terminators that `.` does not match and after which MULTILINE `^` matches. */
  predicate IsLineTerminator(c: char) {
    c == '\n' || c == '\r' || c == '\U{0085}' || c == '\U{2028}' || c == '\U{2029}'
  }

  predicate IsAsciiLetter(c: char) {
    ('a' <= c <= 'z') || ('A' <= c <= 'Z')
  }

  predicate IsDigit(c: char) {
    '0' <= c <= '9'
  }

  /** The regex class `[a-zA-Z0-9_]`. */
  predicate IsWordChar(c: char) {
    IsAsciiLetter(c) || IsDigit(c) || c == '_'
  }

  lemma TrimmableCoversSpace(c: char)
    ensures IsSpace(c) ==> IsTrimmable(c)
    ensures IsJavaWhitespace(c) ==> IsTrimmable(c)
  {
  }

  // ---------------------------------------------------------------------
  // Substring search (String.indexOf / lastIndexOf / contains)
  // ---------------------------------------------------------------------

  /**
   * `pat` occurs in `s` starting at index `i`. Written char by char (not
   * as a slice equality) so that the solver unfolds it only on demand.
   */
  predicate StartsAt(s: string, pat: string, i: int) {
    0 <= i && i + |pat| <= |s| && MatchesFrom(s, pat, i, 0)
  }

  /** `s[i + j] == pat[j]` for every `j` from `k` to the end of `pat`. */
  predicate MatchesFrom(s: string, pat: string, i: nat, k: nat)
    requires i + |pat| <= |s| && k <= |pat|
    decreases |pat| - k
  {
    k == |pat| || (s[i + k] == pat[k] && MatchesFrom(s, pat, i, k + 1))
  }

  lemma {:induction false} MatchesFromChars(s: string, pat: string, i: nat, k: nat)
    requires i + |pat| <= |s| && k <= |pat|
    decreases |pat| - k
    ensures MatchesFrom(s, pat, i, k) <==> forall j :: k <= j < |pat| ==> s[i + j] == pat[j]
  {
    if k < |pat| {
      MatchesFromChars(s, pat, i, k + 1);
    }
  }

  /** An occurrence is a slice equal to the pattern. */
  lemma StartsAtIff(s: string, pat: string, i: int)
    ensures StartsAt(s, pat, i) <==> 0 <= i && i + |pat| <= |s| && s[i..i + |pat|] == pat
  {
    if 0 <= i && i + |pat| <= |s| {
      MatchesFromChars(s, pat, i, 0);
      var w := s[i..i + |pat|];
      assert forall j :: 0 <= j < |pat| ==> w[j] == s[i + j];
      if MatchesFrom(s, pat, i, 0) {
        assert w == pat;
      }
    }
  }

  /** A six-char pattern occurs where its six chars are. */
  lemma StartsAtSix(s: string, pat: string, i: nat)
    requires |pat| == 6 && i + 6 <= |s|
    requires s[i] == pat[0] && s[i + 1] == pat[1] && s[i + 2] == pat[2]
    requires s[i + 3] == pat[3] && s[i + 4] == pat[4] && s[i + 5] == pat[5]
    ensures StartsAt(s, pat, i)
  {
    assert MatchesFrom(s, pat, i, 6);
    assert MatchesFrom(s, pat, i, 5);
    assert MatchesFrom(s, pat, i, 4);
    assert MatchesFrom(s, pat, i, 3);
    assert MatchesFrom(s, pat, i, 2);
    assert MatchesFrom(s, pat, i, 1);
  }

  predicate Contains(s: string, pat: string) {
    exists i :: 0 <= i <= |s| && StartsAt(s, pat, i)
  }

  /** `s.indexOf(pat, from)`: the first occurrence at or after `from`. */
  function IndexOfFrom(s: string, pat: string, from: nat): (r: Option<nat>)
    decreases |s| - from
    ensures r.Some? ==> from <= r.value && StartsAt(s, pat, r.value)
    ensures r.Some? ==> forall j :: from <= j < r.value ==> !StartsAt(s, pat, j)
    ensures r.None? ==> forall j :: from <= j ==> !StartsAt(s, pat, j)
  {
    if from + |pat| > |s| then None
    else if StartsAt(s, pat, from) then Some(from)
    else IndexOfFrom(s, pat, from + 1)
  }

  /** `s.indexOf(pat)`. */
  function IndexOf(s: string, pat: string): (r: Option<nat>)
    ensures r.Some? <==> Contains(s, pat)
    ensures r.Some? ==> StartsAt(s, pat, r.value) && forall j :: 0 <= j < r.value ==> !StartsAt(s, pat, j)
  {
    IndexOfFrom(s, pat, 0)
  }

  /** The last occurrence of `pat` starting strictly before `k`. */
  function LastIndexOfBefore(s: string, pat: string, k: nat): (r: Option<nat>)
    ensures r.Some? ==> r.value < k && StartsAt(s, pat, r.value)
    ensures r.Some? ==> forall j :: r.value < j < k ==> !StartsAt(s, pat, j)
    ensures r.None? ==> forall j :: 0 <= j < k ==> !StartsAt(s, pat, j)
  {
    if k == 0 then None
    else if StartsAt(s, pat, k - 1) then Some(k - 1)
    else LastIndexOfBefore(s, pat, k - 1)
  }

  /** `s.lastIndexOf(pat)`. */
  function LastIndexOf(s: string, pat: string): (r: Option<nat>)
    ensures r.Some? <==> Contains(s, pat)
    ensures r.Some? ==> StartsAt(s, pat, r.value) && forall j :: r.value < j ==> !StartsAt(s, pat, j)
  {
    LastIndexOfBefore(s, pat, |s| + 1)
  }

  lemma StartsAtConcat(a: string, b: string, pat: string, i: int)
    requires StartsAt(b, pat, i)
    ensures StartsAt(a + b, pat, |a| + i)
  {
    StartsAtIff(b, pat, i);
    StartsAtIff(a + b, pat, |a| + i);
    assert (a + b)[|a| + i..|a| + i + |pat|] == b[i..i + |pat|];
  }

  lemma StartsAtPrefix(a: string, b: string, pat: string, i: int)
    requires StartsAt(a, pat, i)
    ensures StartsAt(a + b, pat, i)
  {
    StartsAtIff(a, pat, i);
    StartsAtIff(a + b, pat, i);
    assert (a + b)[i..i + |pat|] == a[i..i + |pat|];
  }

  /** Regrouping a five-part concatenation. */
  lemma Regroup(a: string, x: string, l: string, y: string, c: string)
    ensures a + (x + l + y) + c == (a + x) + l + (y + c)
  {
  }

  /** An occurrence inside `b` is an occurrence inside any text around `b`. */
  lemma StartsAtWithin(a: string, b: string, c: string, pat: string, i: int)
    requires StartsAt(b, pat, i)
    ensures StartsAt(a + b + c, pat, |a| + i)
  {
    StartsAtIff(b, pat, i);
    StartsAtIff(a + b + c, pat, |a| + i);
    assert (a + b + c)[|a| + i..|a| + i + |pat|] == b[i..i + |pat|];
  }

  /** An occurrence that lies inside a common prefix of two texts is an occurrence in both. */
  lemma StartsAtShared(s: string, t: string, pat: string, i: int, n: nat)
    requires StartsAt(s, pat, i) && i + |pat| <= n <= |s| && n <= |t| && s[..n] == t[..n]
    ensures StartsAt(t, pat, i)
  {
    StartsAtIff(s, pat, i);
    StartsAtIff(t, pat, i);
    assert t[i..i + |pat|] == s[..n][i..i + |pat|];
  }

  /** Within a common prefix of two texts, an occurrence in one is an occurrence in the other. */
  lemma StartsAtSharedIff(s: string, t: string, pat: string, i: nat, n: nat)
    requires i + |pat| <= n <= |s| && n <= |t| && s[..n] == t[..n]
    ensures StartsAt(s, pat, i) <==> StartsAt(t, pat, i)
  {
    StartsAtIff(s, pat, i);
    StartsAtIff(t, pat, i);
    assert s[i..i + |pat|] == s[..n][i..i + |pat|];
    assert t[i..i + |pat|] == t[..n][i..i + |pat|];
  }

  /** An occurrence at `j` fixes every char it covers. */
  lemma StartsAtCovers(s: string, pat: string, j: nat, i: nat)
    requires j <= i < j + |pat|
    ensures StartsAt(s, pat, j) ==> i < |s| && s[i] == pat[i - j]
  {
    StartsAtIff(s, pat, j);
    if StartsAt(s, pat, j) {
      assert s[j..j + |pat|][i - j] == s[i];
    }
  }

  /** An occurrence inside a slice is an occurrence in the slice, at the shifted index. */
  lemma StartsAtSlice(s: string, lo: nat, hi: nat, pat: string, j: nat)
    requires lo <= j && StartsAt(s, pat, j) && j + |pat| <= hi <= |s|
    ensures StartsAt(s[lo..hi], pat, j - lo)
  {
    var t, i := s[lo..hi], j - lo;
    StartsAtIff(s, pat, j);
    StartsAtIff(t, pat, i);
    forall k | 0 <= k < |pat|
      ensures t[i..i + |pat|][k] == pat[k]
    {
      assert s[j..j + |pat|][k] == s[j + k];
    }
  }

  /** An occurrence inside a slice is an occurrence in the whole text, at the shifted index. */
  lemma StartsAtUnslice(s: string, lo: nat, hi: nat, t: string, pat: string, j: nat)
    requires lo <= hi <= |s| && s[lo..hi] == t && StartsAt(t, pat, j)
    ensures StartsAt(s, pat, lo + j)
  {
    StartsAtIff(t, pat, j);
    StartsAtIff(s, pat, lo + j);
    forall k | 0 <= k < |pat|
      ensures s[lo + j..lo + j + |pat|][k] == pat[k]
    {
      assert t[j..j + |pat|][k] == t[j + k];
    }
  }

  /** A slice of the middle piece of a concatenation is the shifted slice of the whole. */
  lemma SliceWithin(a: string, b: string, c: string, lo: nat, hi: nat)
    requires lo <= hi <= |b|
    ensures (a + b + c)[|a| + lo..|a| + hi] == b[lo..hi]
  {
    var x := a + b + c;
    forall k | 0 <= k < hi - lo
      ensures x[|a| + lo..|a| + hi][k] == b[lo..hi][k]
    {
      assert x[|a| + lo + k] == b[lo + k];
    }
  }

  /** A char absent from a stretch of the middle piece is absent from the shifted stretch of the whole. */
  lemma CharAbsentWithin(a: string, b: string, c: string, lo: nat, hi: nat, ch: char)
    requires lo <= hi <= |b| && forall k :: lo <= k < hi ==> b[k] != ch
    ensures forall k :: |a| + lo <= k < |a| + hi ==> (a + b + c)[k] != ch
  {
    forall k | |a| + lo <= k < |a| + hi
      ensures (a + b + c)[k] != ch
    {
      assert (a + b + c)[k] == b[k - |a|];
    }
  }

  /** Replacing `s[lo..hi]` by `mid` keeps the text before and after it, the latter shifted. */
  lemma SpliceFrame(s: string, lo: nat, hi: nat, mid: string)
    requires lo <= hi <= |s|
    ensures var r := s[..lo] + mid + s[hi..];
      && |r| == |s| - (hi - lo) + |mid|
      && r[..lo] == s[..lo]
      && r[lo..lo + |mid|] == mid
      && r[lo + |mid|..] == s[hi..]
  {
    var r := s[..lo] + mid + s[hi..];
    assert r[..lo] == s[..lo];
    assert r[lo..lo + |mid|] == mid;
    assert r[lo + |mid|..] == s[hi..];
  }

  /** The stretches `[i, lo)` and `n` chars from `hi` survive the replacement of `s[lo..hi]`. */
  lemma SpliceAround(s: string, lo: nat, hi: nat, mid: string, i: nat, n: nat)
    requires i <= lo <= hi && hi + n <= |s|
    ensures var r := s[..lo] + mid + s[hi..];
      && r[i..lo] == s[i..lo]
      && r[lo + |mid|..lo + |mid| + n] == s[hi..hi + n]
  {
    var r := s[..lo] + mid + s[hi..];
    var t0, u0 := r[i..lo], s[i..lo];
    forall k | 0 <= k < lo - i
      ensures t0[k] == u0[k]
    {
      assert r[i + k] == s[i + k];
    }
    assert t0 == u0;
    var t, u := r[lo + |mid|..lo + |mid| + n], s[hi..hi + n];
    forall k | 0 <= k < n
      ensures t[k] == u[k]
    {
      assert r[lo + |mid| + k] == s[hi + k];
    }
    assert t == u;
  }

  /** A char absent from `mid` is absent from where `mid` lands after the replacement. */
  lemma SpliceAvoids(s: string, lo: nat, hi: nat, mid: string, ch: char)
    requires lo <= hi <= |s| && forall k :: 0 <= k < |mid| ==> mid[k] != ch
    ensures forall k :: lo <= k < lo + |mid| ==> (s[..lo] + mid + s[hi..])[k] != ch
  {
    forall k | lo <= k < lo + |mid|
      ensures (s[..lo] + mid + s[hi..])[k] != ch
    {
      assert (s[..lo] + mid + s[hi..])[k] == mid[k - lo];
    }
  }

  /** `s.endsWith(suffix)` */
  predicate EndsWith(s: string, suffix: string) {
    |suffix| <= |s| && s[|s| - |suffix|..] == suffix
  }

  /** A literal occurrence inside a concatenation is found where it was placed. */
  lemma StartsAtLiteral(a: string, pat: string, b: string)
    ensures StartsAt(a + pat + b, pat, |a|)
  {
    StartsAtIff(a + pat + b, pat, |a|);
    assert (a + pat + b)[|a|..|a| + |pat|] == pat;
  }

  // ---------------------------------------------------------------------
  // Stripping (trim, stripTrailing, replaceAll("\\s+$", ""))
  // ---------------------------------------------------------------------

  /** Removes the longest prefix whose chars all satisfy `p`. */
  function StripStart(s: string, p: char -> bool): (r: string)
    ensures |r| <= |s| && r == s[|s| - |r|..]
    ensures r == [] || !p(r[0])
  {
    if |s| > 0 && p(s[0]) then StripStart(s[1..], p) else s
  }

  /** Every char `StripStart` removes satisfies `p`. */
  lemma {:induction false} StripStartRemoved(s: string, p: char -> bool)
    ensures forall i :: 0 <= i < |s| - |StripStart(s, p)| ==> p(s[i])
  {
    if |s| > 0 && p(s[0]) {
      StripStartRemoved(s[1..], p);
      forall i | 1 <= i < |s| - |StripStart(s, p)|
        ensures p(s[i])
      {
        assert s[i] == s[1..][i - 1];
      }
    }
  }

  /** Removes the longest suffix whose chars all satisfy `p`. */
  function StripEnd(s: string, p: char -> bool): (r: string)
    ensures r <= s
    ensures r == [] || !p(r[|r| - 1])
  {
    if |s| > 0 && p(s[|s| - 1]) then StripEnd(s[..|s| - 1], p) else s
  }

  /** Every char `StripEnd` removes satisfies `p`. */
  lemma {:induction false} StripEndRemoved(s: string, p: char -> bool)
    ensures forall i :: |StripEnd(s, p)| <= i < |s| ==> p(s[i])
  {
    if |s| > 0 && p(s[|s| - 1]) {
      StripEndRemoved(s[..|s| - 1], p);
      forall i | |StripEnd(s, p)| <= i < |s| - 1
        ensures p(s[i])
      {
        assert s[i] == s[..|s| - 1][i];
      }
    }
  }

  /** `String.trim()`. */
  function Trim(s: string): string {
    StripEnd(StripStart(s, IsTrimmable), IsTrimmable)
  }

  /** `String.stripTrailing()`. */
  function StripTrailing(s: string): string {
    StripEnd(s, IsJavaWhitespace)
  }

  /**
   * `s.replaceAll("\\s+$", "")`. Without MULTILINE, `$` also matches just
   * before a final line terminator, so a trailing U+0085, U+2028 or U+2029
   * (which `\s` does not match) survives while the `\s` run before it goes.
   */
  function StripTrailingSpaceRegex(s: string): string {
    if |s| > 0 && IsLineTerminator(s[|s| - 1]) && !IsSpace(s[|s| - 1]) then
      StripEnd(s[..|s| - 1], IsSpace) + [s[|s| - 1]]
    else
      StripEnd(s, IsSpace)
  }

  /** `s.trim().isEmpty()` */
  predicate IsBlank(s: string) {
    Trim(s) == []
  }

  lemma StripStartAll(s: string, p: char -> bool)
    requires forall i :: 0 <= i < |s| ==> p(s[i])
    ensures StripStart(s, p) == []
  {
  }

  /** Stripping at the start keeps every char the predicate does not remove, and adds none. */
  lemma {:induction false} StripStartKeeps(s: string, p: char -> bool, c: char)
    ensures c in StripStart(s, p) ==> c in s
    ensures c in s && !p(c) ==> c in StripStart(s, p)
  {
    if |s| > 0 && p(s[0]) {
      StripStartKeeps(s[1..], p, c);
      assert s == [s[0]] + s[1..];
    }
  }

  /** Stripping at the end keeps every char the predicate does not remove, and adds none. */
  lemma {:induction false} StripEndKeeps(s: string, p: char -> bool, c: char)
    ensures c in StripEnd(s, p) ==> c in s
    ensures c in s && !p(c) ==> c in StripEnd(s, p)
  {
    if |s| > 0 && p(s[|s| - 1]) {
      StripEndKeeps(s[..|s| - 1], p, c);
      assert s == s[..|s| - 1] + [s[|s| - 1]];
    }
  }

  /** Trimming removes no char above U+0020. */
  lemma TrimKeeps(s: string, c: char)
    requires !IsTrimmable(c)
    ensures c in Trim(s) <==> c in s
  {
    StripStartKeeps(s, IsTrimmable, c);
    StripEndKeeps(StripStart(s, IsTrimmable), IsTrimmable, c);
  }

  /** A string is blank exactly when every char of it is trimmable. */
  lemma BlankIff(s: string)
    ensures IsBlank(s) <==> forall i :: 0 <= i < |s| ==> IsTrimmable(s[i])
  {
    if IsBlank(s) {
      var t := StripStart(s, IsTrimmable);
      StripStartRemoved(s, IsTrimmable);
      StripEndRemoved(t, IsTrimmable);
      assert |t| == 0;
    } else if forall i :: 0 <= i < |s| ==> IsTrimmable(s[i]) {
      StripStartAll(s, IsTrimmable);
    }
  }

  lemma {:induction false} StripStartPad(pad: string, s: string)
    requires forall i :: 0 <= i < |pad| ==> IsTrimmable(pad[i])
    requires |s| > 0 && !IsTrimmable(s[0])
    ensures StripStart(pad + s, IsTrimmable) == s
  {
    if |pad| == 0 {
      assert pad + s == s;
    } else {
      assert (pad + s)[0] == pad[0] && (pad + s)[1..] == pad[1..] + s;
      StripStartPad(pad[1..], s);
    }
  }

  /** Trimming an indented text that starts and ends with visible chars removes the indent. */
  lemma TrimPadded(pad: string, s: string)
    requires forall i :: 0 <= i < |pad| ==> IsTrimmable(pad[i])
    requires |s| > 0 && !IsTrimmable(s[0]) && !IsTrimmable(s[|s| - 1])
    ensures Trim(pad + s) == s
  {
    StripStartPad(pad, s);
  }

  /** Trimming a text that starts and ends with visible chars removes only the trimmable tail after it. */
  lemma {:induction false} TrimVisible(s: string, tail: string)
    requires |s| > 0 && !IsTrimmable(s[0]) && !IsTrimmable(s[|s| - 1])
    requires forall i :: 0 <= i < |tail| ==> IsTrimmable(tail[i])
    ensures Trim(s + tail) == s
    decreases |tail|
  {
    if |tail| == 0 {
      assert s + tail == s;
    } else {
      var t := s + tail;
      assert t[..|t| - 1] == s + tail[..|tail| - 1];
      TrimVisible(s, tail[..|tail| - 1]);
    }
  }

  // ---------------------------------------------------------------------
  // Character replacement
  // ---------------------------------------------------------------------

  /** `s.replace(String.valueOf(from), to)`: every `from` becomes `to`. */
  function Replace(s: string, from: char, to: string): (r: string)
    ensures from !in to ==> from !in r
    ensures from !in s ==> r == s
  {
    if |s| == 0 then []
    else
      assert s == [s[0]] + s[1..];
      (if s[0] == from then to else [s[0]]) + Replace(s[1..], from, to)
  }

  /** `s.replace("\r\n", "\n")`: left-to-right, non-overlapping. */
  function ReplaceCrLf(s: string): (r: string)
    ensures |r| <= |s|
    ensures '\r' !in s ==> r == s
  {
    if |s| == 0 then []
    else if |s| >= 2 && s[0] == '\r' && s[1] == '\n' then "\n" + ReplaceCrLf(s[2..])
    else [s[0]] + ReplaceCrLf(s[1..])
  }

  /** `content.replace("\r\n", "\n").replace("\r", "\n")`. */
  function NormalizeNewlines(s: string): (r: string)
    ensures '\r' !in r
  {
    Replace(ReplaceCrLf(s), '\r', "\n")
  }

  /** `" ".repeat(n)` and friends. */
  function Repeat(c: char, n: nat): (r: string)
    ensures |r| == n && forall i :: 0 <= i < n ==> r[i] == c
  {
    if n == 0 then [] else [c] + Repeat(c, n - 1)
  }

  // ---------------------------------------------------------------------
  // String.join and String.split
  // ---------------------------------------------------------------------

  /** `String.join(sep, xs)`. */
  function Join(xs: seq<string>, sep: string): string {
    if |xs| == 0 then []
    else if |xs| == 1 then xs[0]
    else xs[0] + sep + Join(xs[1..], sep)
  }

  /** Each string followed by a newline, the way a StringBuilder loop writes lines. */
  function Lines(xs: seq<string>): string {
    if |xs| == 0 then [] else xs[0] + "\n" + Lines(xs[1..])
  }

  lemma {:induction false} LinesAppend(a: seq<string>, b: seq<string>)
    ensures Lines(a + b) == Lines(a) + Lines(b)
  {
    if |a| > 0 {
      assert (a + b)[1..] == a[1..] + b;
      LinesAppend(a[1..], b);
    } else {
      assert a + b == b;
    }
  }

  lemma LinesCons(x: string, xs: seq<string>)
    ensures Lines([x] + xs) == x + "\n" + Lines(xs)
  {
    assert ([x] + xs)[1..] == xs;
  }

  lemma LinesSnoc(xs: seq<string>, x: string)
    ensures Lines(xs + [x]) == Lines(xs) + x + "\n"
  {
    LinesAppend(xs, [x]);
    LinesCons(x, []);
    assert [x] + [] == [x];
  }

  /** Appending after the head and the tail is appending to the whole list. */
  lemma AppendAfterHead<T>(xs: seq<T>, ys: seq<T>)
    requires |xs| > 0
    ensures xs + ys == [xs[0]] + (xs[1..] + ys)
  {
    assert xs == [xs[0]] + xs[1..];
  }

  /** Moving the head of `ys` onto the end of `xs` keeps the concatenation. */
  lemma SnocHead<T>(xs: seq<T>, ys: seq<T>)
    requires |ys| > 0
    ensures xs + [ys[0]] + ys[1..] == xs + ys
  {
    assert ys == [ys[0]] + ys[1..];
  }

  /** Four pieces regrouped to the right. */
  lemma RegroupRight<T>(a: seq<T>, b: seq<T>, c: seq<T>, d: seq<T>)
    ensures a + b + c + d == a + (b + (c + d))
  {
  }

  /** All but the last of an append with a non-empty right side. */
  lemma AppendInit<T>(xs: seq<T>, ys: seq<T>)
    requires |ys| > 0
    ensures (xs + ys)[..|xs + ys| - 1] == xs + ys[..|ys| - 1]
    ensures (xs + ys)[|xs + ys| - 1] == ys[|ys| - 1]
  {
  }

  /** Concatenation regrouped to the right. */
  lemma Assoc<T>(a: seq<T>, b: seq<T>, c: seq<T>)
    ensures a + b + c == a + (b + c)
  {
  }

  /** Appends a line and its newline to a text holding the lines written so far. */
  method AppendLine(text: string, ghost written: seq<string>, line: string) returns (out: string, ghost now: seq<string>)
    requires text == Lines(written)
    ensures now == written + [line] && out == Lines(now)
  {
    out := text + line + "\n";
    LinesSnoc(written, line);
    now := written + [line];
  }

  /** Joining with newlines is terminating all but the last line. */
  lemma {:induction false} JoinAsLines(xs: seq<string>, x: string)
    ensures Join(xs + [x], "\n") == Lines(xs) + x
  {
    if |xs| > 0 {
      assert (xs + [x])[1..] == xs[1..] + [x];
      JoinAsLines(xs[1..], x);
    } else {
      assert xs + [x] == [x];
    }
  }

  /** Every element of a joined list occurs in the result, at some offset. */
  lemma {:induction false} JoinInfix(xs: seq<string>, sep: string, j: nat) returns (o: nat)
    requires j < |xs|
    ensures o + |xs[j]| <= |Join(xs, sep)| && Join(xs, sep)[o..o + |xs[j]|] == xs[j]
  {
    if |xs| == 1 {
      o := 0;
    } else if j == 0 {
      o := 0;
      assert Join(xs, sep) == xs[0] + (sep + Join(xs[1..], sep));
    } else {
      var o' := JoinInfix(xs[1..], sep, j - 1);
      o := |xs[0]| + |sep| + o';
      var rest := Join(xs[1..], sep);
      assert Join(xs, sep) == (xs[0] + sep) + rest;
      assert Join(xs, sep)[o..o + |xs[j]|] == rest[o'..o' + |xs[j]|];
    }
  }

  /** A joined list is the text before an element, the element, and the text after it. */
  lemma JoinAround(xs: seq<string>, sep: string, k: nat) returns (before: string, after: string)
    requires k < |xs|
    ensures Join(xs, sep) == before + xs[k] + after
  {
    var o := JoinInfix(xs, sep, k);
    var j := Join(xs, sep);
    before, after := j[..o], j[o + |xs[k]|..];
    assert j == before + j[o..o + |xs[k]|] + after;
  }

  /** The first index of char `c` in `s`. */
  function IndexOfChar(s: string, c: char): (r: nat)
    requires c in s
    ensures r < |s| && s[r] == c && c !in s[..r]
  {
    if s[0] == c then 0 else 1 + IndexOfChar(s[1..], c)
  }

  /** All the pieces between occurrences of `sep`, empty ones included. */
  function SplitOn(s: string, sep: char): (r: seq<string>)
    decreases |s|
    ensures |r| >= 1
    ensures forall i :: 0 <= i < |r| ==> sep !in r[i]
  {
    if sep !in s then [s]
    else
      var i := IndexOfChar(s, sep);
      [s[..i]] + SplitOn(s[i + 1..], sep)
  }

  lemma JoinCons(x: string, xs: seq<string>, sep: string)
    requires |xs| >= 1
    ensures Join([x] + xs, sep) == x + sep + Join(xs, sep)
  {
    assert ([x] + xs)[1..] == xs;
  }

  /** Joining two non-empty lists is joining their joins. */
  lemma {:induction false} JoinAppend(a: seq<string>, b: seq<string>, sep: string)
    requires |a| >= 1 && |b| >= 1
    ensures Join(a + b, sep) == Join(a, sep) + sep + Join(b, sep)
  {
    if |a| == 1 {
      JoinCons(a[0], b, sep);
      assert a + b == [a[0]] + b;
    } else {
      JoinAppend(a[1..], b, sep);
      assert (a + b)[1..] == a[1..] + b;
    }
  }

  /** A char found in no element and not in the separator is not in the join. */
  lemma {:induction false} JoinAvoids(xs: seq<string>, sep: string, c: char)
    requires c !in sep && forall i :: 0 <= i < |xs| ==> c !in xs[i]
    ensures c !in Join(xs, sep)
  {
    if |xs| > 1 {
      JoinAvoids(xs[1..], sep, c);
    }
  }

  /** A join starts with the first element and ends with the last. */
  lemma {:induction false} JoinEnds(xs: seq<string>, sep: string)
    requires |xs| >= 1
    ensures xs[0] <= Join(xs, sep)
    ensures |xs[|xs| - 1]| <= |Join(xs, sep)|
    ensures Join(xs, sep)[|Join(xs, sep)| - |xs[|xs| - 1]|..] == xs[|xs| - 1]
  {
    if |xs| > 1 {
      JoinEnds(xs[1..], sep);
    }
  }

  /** Gluing the pieces back together gives the original string. */
  lemma {:induction false} JoinSplitOn(s: string, sep: char)
    decreases |s|
    ensures Join(SplitOn(s, sep), [sep]) == s
  {
    if sep in s {
      var i := IndexOfChar(s, sep);
      var rest := SplitOn(s[i + 1..], sep);
      JoinSplitOn(s[i + 1..], sep);
      JoinCons(s[..i], rest, [sep]);
      assert s == s[..i] + [sep] + s[i + 1..];
    }
  }

  /** The first occurrence of a char is the one with no earlier occurrence. */
  lemma IndexOfCharAt(s: string, c: char, i: nat)
    requires i < |s| && s[i] == c && c !in s[..i]
    ensures IndexOfChar(s, c) == i
  {
  }

  /** Splitting at the first separator: the piece before it, then the split of the rest. */
  lemma SplitOnCons(a: string, sep: char, b: string)
    requires sep !in a
    ensures SplitOn(a + [sep] + b, sep) == [a] + SplitOn(b, sep)
  {
    var s := a + [sep] + b;
    assert s[|a|] == sep;
    assert s[..|a|] == a;
    IndexOfCharAt(s, sep, |a|);
    assert s[|a| + 1..] == b;
  }

  /** A piece of a split holds only chars of the split text. */
  lemma {:induction false} SplitOnChars(s: string, sep: char, k: nat, c: char)
    decreases |s|
    requires k < |SplitOn(s, sep)| && c in SplitOn(s, sep)[k]
    ensures c in s
  {
    if sep in s {
      var i := IndexOfChar(s, sep);
      var rest := SplitOn(s[i + 1..], sep);
      assert SplitOn(s, sep) == [s[..i]] + rest;
      if k == 0 {
        assert c in s[..i];
      } else {
        assert rest[k - 1] == SplitOn(s, sep)[k];
        SplitOnChars(s[i + 1..], sep, k - 1, c);
        assert c in s[i + 1..];
      }
    }
  }

  /** Splitting a join of sep-free pieces gives the pieces back. */
  lemma {:induction false} SplitOnJoin(xs: seq<string>, sep: char)
    requires |xs| >= 1
    requires forall i :: 0 <= i < |xs| ==> sep !in xs[i]
    ensures SplitOn(Join(xs, [sep]), sep) == xs
  {
    if |xs| > 1 {
      var tail := Join(xs[1..], [sep]);
      assert Join(xs, [sep]) == xs[0] + [sep] + tail;
      SplitOnCons(xs[0], sep, tail);
      SplitOnJoin(xs[1..], sep);
      assert xs == [xs[0]] + xs[1..];
    }
  }

  /** Splitting newline-terminated lines at '\n' gives the lines back, then the empty rest. */
  lemma {:induction false} SplitOnLines(xs: seq<string>)
    requires forall i :: 0 <= i < |xs| ==> '\n' !in xs[i]
    ensures SplitOn(Lines(xs), '\n') == xs + [""]
  {
    if |xs| > 0 {
      var rest := Lines(xs[1..]);
      assert Lines(xs) == xs[0] + ['\n'] + rest;
      SplitOnCons(xs[0], '\n', rest);
      SplitOnLines(xs[1..]);
      SnocAfterHead(xs, "");
    }
  }

  /** Appending after the head and the tail is appending to the whole list. */
  lemma SnocAfterHead<T>(xs: seq<T>, y: T)
    requires |xs| > 0
    ensures xs + [y] == [xs[0]] + (xs[1..] + [y])
  {
    assert xs == [xs[0]] + xs[1..];
  }

  /** Drops the empty strings at the end of the list. */
  function DropTrailingEmpty(xs: seq<string>): (r: seq<string>)
    ensures r <= xs
    ensures forall i :: |r| <= i < |xs| ==> xs[i] == []
    ensures r == [] || r[|r| - 1] != []
  {
    if |xs| > 0 && xs[|xs| - 1] == [] then DropTrailingEmpty(xs[..|xs| - 1]) else xs
  }

  predicate AllEmpty(xs: seq<string>) {
    forall i :: 0 <= i < |xs| ==> xs[i] == []
  }

  /** A list is what `DropTrailingEmpty` keeps, then only empty strings. */
  lemma DropTrailingEmptySplit(xs: seq<string>)
    ensures xs == DropTrailingEmpty(xs) + xs[|DropTrailingEmpty(xs)|..]
    ensures AllEmpty(xs[|DropTrailingEmpty(xs)|..])
  {
    var r := DropTrailingEmpty(xs);
    assert xs == xs[..|r|] + xs[|r|..];
  }

  /**
   * `s.split(String.valueOf(sep))` with limit 0: an input without `sep` is
   * returned whole (so `"".split(",")` is `[""]`); otherwise the pieces lose
   * their trailing empty strings.
   */
  function JavaSplit(s: string, sep: char): (r: seq<string>)
    ensures forall i :: 0 <= i < |r| ==> sep !in r[i]
  {
    if sep !in s then [s] else DropTrailingEmpty(SplitOn(s, sep))
  }

  /** A piece of `split` holds only chars of the split text. */
  lemma JavaSplitChars(s: string, sep: char, k: nat, c: char)
    requires k < |JavaSplit(s, sep)| && c in JavaSplit(s, sep)[k]
    ensures c in s
  {
    if sep in s {
      SplitOnChars(s, sep, k, c);
    }
  }

  /** Trimming keeps only chars of the text. */
  lemma TrimChars(s: string, c: char)
    requires c in Trim(s)
    ensures c in s
  {
    var t := StripStart(s, IsTrimmable);
    assert Trim(s) <= t;
  }

  /** Splitting what `String.join` produced gives back the list, when its last piece is non-empty. */
  lemma JavaSplitJoin(xs: seq<string>, sep: char)
    requires |xs| >= 1
    requires forall i :: 0 <= i < |xs| ==> sep !in xs[i]
    requires |xs| == 1 || xs[|xs| - 1] != []
    ensures JavaSplit(Join(xs, [sep]), sep) == xs
  {
    SplitOnJoin(xs, sep);
    if |xs| > 1 {
      assert Join(xs, [sep]) == xs[0] + [sep] + Join(xs[1..], [sep]);
      assert Join(xs, [sep])[|xs[0]|] == sep;
    }
  }

  /** A non-empty, separator-free element of a joined list is one of the pieces `split` gives back. */
  lemma JoinedElementSurvivesSplit(xs: seq<string>, sep: char, x: string)
    requires forall i :: 0 <= i < |xs| ==> sep !in xs[i]
    requires x in xs && x != []
    ensures x in JavaSplit(Join(xs, [sep]), sep)
    ensures Join(xs, [sep]) != []
  {
    SplitOnJoin(xs, sep);
    var k :| 0 <= k < |xs| && xs[k] == x;
    var s := Join(xs, [sep]);
    if sep in s {
      var r := DropTrailingEmpty(xs);
      assert k < |r|;
      assert r[k] == x;
    }
  }

  /** A list of non-empty separator-free pieces is what `split` reads back from its join. */
  lemma JavaSplitJoinNonEmpty(xs: seq<string>, sep: char)
    requires forall i :: 0 <= i < |xs| ==> xs[i] != [] && sep !in xs[i]
    ensures Join(xs, [sep]) == [] <==> xs == []
    ensures xs != [] ==> JavaSplit(Join(xs, [sep]), sep) == xs
  {
    if xs != [] {
      JoinedElementSurvivesSplit(xs, sep, xs[0]);
      JavaSplitJoin(xs, sep);
    }
  }

  /** Drops one trailing '\r' from each piece. */
  function DropCr(xs: seq<string>): (r: seq<string>)
    ensures |r| == |xs|
  {
    if |xs| == 0 then []
    else
      var x := xs[0];
      [if |x| > 0 && x[|x| - 1] == '\r' then x[..|x| - 1] else x] + DropCr(xs[1..])
  }

  /**
   * `s.split("\\r?\\n")`: the separator is "\r\n" or "\n", so every piece
   * but the last loses one trailing '\r'.
   */
  function SplitLines(s: string): (r: seq<string>)
    ensures '\n' !in s ==> r == [s]
  {
    if '\n' !in s then [s]
    else
      var pieces := SplitOn(s, '\n');
      var n := |pieces|;
      DropTrailingEmpty(DropCr(pieces[..n - 1]) + [pieces[n - 1]])
  }

  /** The pieces `split("\\r?\\n")` cuts, before the trailing empty ones are dropped. */
  function RawLines(s: string): (r: seq<string>)
    ensures |r| >= 1
  {
    RawPieces(SplitOn(s, '\n'))
  }

  /** Every piece but the last loses one trailing '\r'. */
  function RawPieces(pieces: seq<string>): (r: seq<string>)
    requires |pieces| >= 1
    ensures |r| == |pieces|
  {
    DropCr(pieces[..|pieces| - 1]) + [pieces[|pieces| - 1]]
  }

  /** `split("\\r?\\n")` is the raw pieces less their trailing empty strings. */
  lemma SplitLinesRaw(s: string)
    ensures SplitLines(s) == if '\n' in s then DropTrailingEmpty(RawLines(s)) else RawLines(s)
  {
  }

  /** A line as a writer emits it: no '\n' inside and no '\r' at its end. */
  predicate WrittenLine(x: string) {
    '\n' !in x && (x == [] || x[|x| - 1] != '\r')
  }

  predicate AllWritten(xs: seq<string>) {
    forall i :: 0 <= i < |xs| ==> WrittenLine(xs[i])
  }

  lemma AllWrittenAppend(a: seq<string>, b: seq<string>)
    requires AllWritten(a) && AllWritten(b)
    ensures AllWritten(a + b)
  {
    forall i | 0 <= i < |a + b|
      ensures WrittenLine((a + b)[i])
    {
      if i < |a| {
        assert (a + b)[i] == a[i];
      } else {
        assert (a + b)[i] == b[i - |a|];
      }
    }
  }

  lemma {:induction false} DropCrAppend(a: seq<string>, b: seq<string>)
    ensures DropCr(a + b) == DropCr(a) + DropCr(b)
  {
    if |a| > 0 {
      assert (a + b)[0] == a[0] && (a + b)[1..] == a[1..] + b;
      DropCrAppend(a[1..], b);
    } else {
      assert a + b == b;
    }
  }

  lemma {:induction false} DropCrPlain(xs: seq<string>)
    requires AllWritten(xs)
    ensures DropCr(xs) == xs
  {
    if |xs| > 0 {
      DropCrPlain(xs[1..]);
      assert xs == [xs[0]] + xs[1..];
    }
  }

  /** Splitting lines written one by one, then more text, gives the lines, then the pieces of the text. */
  lemma {:induction false} SplitOnLinesThen(xs: seq<string>, y: string)
    requires forall i :: 0 <= i < |xs| ==> '\n' !in xs[i]
    ensures SplitOn(Lines(xs) + y, '\n') == xs + SplitOn(y, '\n')
  {
    if |xs| > 0 {
      var head, tail := xs[0], Lines(xs[1..]);
      assert Lines(xs) == head + "\n" + tail;
      var rest := tail + y;
      Assoc(head + "\n", tail, y);
      assert Lines(xs) + y == head + ['\n'] + rest;
      SplitOnCons(head, '\n', rest);
      SplitOnLinesThen(xs[1..], y);
      AppendAfterHead(xs, SplitOn(y, '\n'));
    } else {
      assert Lines(xs) + y == y;
    }
  }

  /** `RawLines` of written lines followed by more text: the lines, then the raw lines of the text. */
  lemma RawLinesThen(xs: seq<string>, y: string)
    requires AllWritten(xs)
    ensures RawLines(Lines(xs) + y) == xs + RawLines(y)
  {
    SplitOnLinesThen(xs, y);
    RawPiecesAppend(xs, SplitOn(y, '\n'));
  }

  lemma RawPiecesAppend(xs: seq<string>, p: seq<string>)
    requires AllWritten(xs)
    requires |p| >= 1
    ensures RawPieces(xs + p) == xs + RawPieces(p)
  {
    var init, last := p[..|p| - 1], p[|p| - 1];
    var pieces := xs + p;
    AppendInit(xs, p);
    DropCrAppend(xs, init);
    DropCrPlain(xs);
    Assoc(xs, DropCr(init), [last]);
  }

  // ---------------------------------------------------------------------
  // Spans and scanners for regular expressions
  // ---------------------------------------------------------------------

  /** The end of the greedy `\s*` run at `i`. */
  function WsEnd(s: string, i: nat): (e: nat)
    requires i <= |s|
    decreases |s| - i
    ensures i <= e <= |s|
    ensures e == |s| || !IsSpace(s[e])
  {
    if i < |s| && IsSpace(s[i]) then WsEnd(s, i + 1) else i
  }

  /** Everything the run covers is whitespace. */
  lemma {:induction false} WsEndSpaces(s: string, i: nat)
    requires i <= |s|
    decreases |s| - i
    ensures forall k :: i <= k < WsEnd(s, i) ==> IsSpace(s[k])
  {
    if i < |s| && IsSpace(s[i]) {
      WsEndSpaces(s, i + 1);
    }
  }

  /** The end of the greedy `[ \t]*` run at `i`. */
  function IndentEnd(s: string, i: nat): (e: nat)
    requires i <= |s|
    decreases |s| - i
    ensures i <= e <= |s|
    ensures forall k :: i <= k < e ==> s[k] == ' ' || s[k] == '\t'
    ensures e == |s| || (s[e] != ' ' && s[e] != '\t')
  {
    if i < |s| && (s[i] == ' ' || s[i] == '\t') then IndentEnd(s, i + 1) else i
  }

  /** MULTILINE `^`: the start of the text or just after a line terminator (not inside "\r\n"). */
  predicate AtLineStart(t: string, i: nat)
    requires i <= |t|
  {
    i == 0 || (IsLineTerminator(t[i - 1]) && !(t[i - 1] == '\r' && i < |t| && t[i] == '\n'))
  }

  /** A `\s*` run that stops inside `b` ends at the same place when `b` sits inside a longer text. */
  lemma WsEndWithin(a: string, b: string, c: string, j: nat)
    requires j <= |b| && WsEnd(b, j) < |b|
    ensures WsEnd(a + b + c, |a| + j) == |a| + WsEnd(b, j)
  {
    var s, e := a + b + c, WsEnd(b, j);
    WsEndSpaces(b, j);
    assert forall k :: |a| + j <= k < |a| + e ==> s[k] == b[k - |a|];
    assert s[|a| + e] == b[e];
    WsEndIs(s, |a| + j, |a| + e);
  }

  /** The end of the greedy `[a-zA-Z0-9_]*` run at `i`. */
  function WordEnd(s: string, i: nat): (e: nat)
    requires i <= |s|
    decreases |s| - i
    ensures i <= e <= |s|
    ensures forall k :: i <= k < e ==> IsWordChar(s[k])
    ensures e == |s| || !IsWordChar(s[e])
  {
    if i < |s| && IsWordChar(s[i]) then WordEnd(s, i + 1) else i
  }

  /** The first index in [from, to) holding `c`. */
  function FindCharIn(s: string, c: char, from: nat, to: nat): (r: Option<nat>)
    requires from <= to <= |s|
    decreases (to as int) - (from as int)
    ensures r.Some? ==> from <= r.value < to && s[r.value] == c
  {
    if from == to then None
    else if s[from] == c then Some(from)
    else FindCharIn(s, c, from + 1, to)
  }

  /** The char found is the first one in range; when none is found, the range has none. */
  lemma {:induction false} FindCharInFacts(s: string, c: char, from: nat, to: nat)
    requires from <= to <= |s|
    decreases (to as int) - (from as int)
    ensures FindCharIn(s, c, from, to).Some? ==> forall k :: from <= k < FindCharIn(s, c, from, to).value ==> s[k] != c
    ensures FindCharIn(s, c, from, to).None? ==> forall k :: from <= k < to ==> s[k] != c
  {
    if from < to && s[from] != c {
      FindCharInFacts(s, c, from + 1, to);
    }
  }

  /** The last index in [from, to) holding `c`. */
  function LastCharIn(s: string, c: char, from: nat, to: nat): (r: Option<nat>)
    requires from <= to <= |s|
    decreases (to as int) - (from as int)
    ensures r.Some? ==> from <= r.value < to && s[r.value] == c
    ensures r.Some? ==> forall k :: r.value < k < to ==> s[k] != c
    ensures r.None? ==> forall k :: from <= k < to ==> s[k] != c
  {
    if from == to then None
    else if s[to - 1] == c then Some(to - 1)
    else LastCharIn(s, c, from, to - 1)
  }

  /** The first index at or after `from` holding a line terminator (where a greedy `.*` stops). */
  function LineTerminatorFrom(s: string, from: nat): (r: Option<nat>)
    requires from <= |s|
    decreases |s| - from
    ensures r.Some? ==> from <= r.value < |s| && IsLineTerminator(s[r.value])
    ensures r.Some? ==> forall k :: from <= k < r.value ==> !IsLineTerminator(s[k])
    ensures r.None? ==> forall k :: from <= k < |s| ==> !IsLineTerminator(s[k])
  {
    if from == |s| then None
    else if IsLineTerminator(s[from]) then Some(from)
    else LineTerminatorFrom(s, from + 1)
  }

  /** The first line terminator is determined by the chars before it. */
  lemma {:induction false} LineTerminatorFromIs(s: string, from: nat, k: nat)
    requires from <= k < |s| && IsLineTerminator(s[k])
    requires forall j :: from <= j < k ==> !IsLineTerminator(s[j])
    decreases k - from
    ensures LineTerminatorFrom(s, from) == Some(k)
  {
    if from < k {
      LineTerminatorFromIs(s, from + 1, k);
    }
  }

  /** A run end is determined by the run: any `e` bounding a maximal run is `WsEnd`. */
  lemma {:induction false} WsEndIs(s: string, i: nat, e: nat)
    requires i <= e <= |s|
    requires forall k :: i <= k < e ==> IsSpace(s[k])
    requires e == |s| || !IsSpace(s[e])
    decreases e - i
    ensures WsEnd(s, i) == e
  {
    if i < e {
      WsEndIs(s, i + 1, e);
    }
  }

  /** A whitespace run that stops inside a slice stops at the shifted index of the slice. */
  lemma WsEndSlice(s: string, lo: nat, hi: nat, j: nat)
    requires lo <= j <= hi <= |s| && WsEnd(s, j) < hi
    ensures WsEnd(s[lo..hi], j - lo) == WsEnd(s, j) - lo
  {
    var t, e := s[lo..hi], WsEnd(s, j);
    WsEndSpaces(s, j);
    assert forall k :: j - lo <= k <= e - lo ==> t[k] == s[k + lo];
    WsEndIs(t, j - lo, e - lo);
  }

  /** A whitespace run that stops inside a slice stops at the shifted index of the whole text. */
  lemma WsEndUnslice(s: string, lo: nat, hi: nat, t: string, j: nat)
    requires lo <= hi <= |s| && s[lo..hi] == t && j <= |t| && WsEnd(t, j) < |t|
    ensures WsEnd(s, lo + j) == lo + WsEnd(t, j)
  {
    var e := WsEnd(t, j);
    WsEndSpaces(t, j);
    assert forall k :: j <= k <= e ==> s[lo + k] == t[k];
    WsEndIs(s, lo + j, lo + e);
  }

  /** A whitespace run that ends inside a common prefix of two texts ends at the same place in both. */
  lemma WsEndShared(s: string, t: string, j: nat, n: nat)
    requires j <= n <= |s| && n <= |t| && s[..n] == t[..n] && WsEnd(s, j) < n
    ensures WsEnd(t, j) == WsEnd(s, j)
  {
    var e := WsEnd(s, j);
    WsEndSpaces(s, j);
    assert forall k :: j <= k <= e ==> t[k] == s[..n][k];
    WsEndIs(t, j, e);
  }

  /** A word end is determined by the word: any `e` bounding a maximal run is `WordEnd`. */
  lemma {:induction false} WordEndIs(s: string, i: nat, e: nat)
    requires i <= e <= |s|
    requires forall k :: i <= k < e ==> IsWordChar(s[k])
    requires e == |s| || !IsWordChar(s[e])
    decreases e - i
    ensures WordEnd(s, i) == e
  {
    if i < e {
      WordEndIs(s, i + 1, e);
    }
  }

  /** The first occurrence is determined by the chars before it. */
  lemma {:induction false} FindCharInIs(s: string, c: char, from: nat, to: nat, k: nat)
    requires from <= k < to <= |s| && s[k] == c
    requires forall j :: from <= j < k ==> s[j] != c
    decreases k - from
    ensures FindCharIn(s, c, from, to) == Some(k)
  {
    if from < k {
      FindCharInIs(s, c, from + 1, to, k);
    }
  }

  /** The last occurrence is determined by the chars after it. */
  lemma LastCharInIs(s: string, c: char, from: nat, to: nat, k: nat)
    requires from <= k < to <= |s| && s[k] == c
    requires forall j :: k < j < to ==> s[j] != c
    ensures LastCharIn(s, c, from, to) == Some(k)
  {
  }

  /**
   * Where a `find()` of a pattern whose per-position matcher is `m`
   * succeeds first, at or after `from`, with what the matcher returned.
   */
  function FirstMatch<M>(s: string, from: nat, m: nat -> Option<M>): (r: Option<(nat, M)>)
    decreases |s| + 1 - from
    ensures r.Some? ==> from <= r.value.0 <= |s| && m(r.value.0) == Some(r.value.1)
  {
    if from > |s| then None
    else match m(from)
      case Some(x) => Some((from, x))
      case None => FirstMatch(s, from + 1, m)
  }

  /** `find()` reports the first match: nothing matches before it, and nothing at all when it reports none. */
  lemma {:induction false} FirstMatchFirst<M>(s: string, from: nat, m: nat -> Option<M>)
    decreases |s| + 1 - from
    ensures var r := FirstMatch(s, from, m);
      && (r.Some? ==> forall j :: from <= j < r.value.0 ==> m(j).None?)
      && (r.None? ==> forall j :: from <= j <= |s| ==> m(j).None?)
  {
    if from <= |s| && m(from).None? {
      FirstMatchFirst(s, from + 1, m);
    }
  }

  /** A match at `p` with none before it, from `from` on, is what `find()` reports. */
  lemma {:induction false} FirstMatchAtFirst<M>(s: string, from: nat, p: nat, m: nat -> Option<M>)
    requires from <= p <= |s| && m(p).Some?
    requires forall j :: from <= j < p ==> m(j).None?
    decreases p - from
    ensures FirstMatch(s, from, m) == Some((p, m(p).value))
  {
    if from < p {
      FirstMatchAtFirst(s, from + 1, p, m);
    }
  }

  // ---------------------------------------------------------------------
  // Decimal rendering (String.valueOf(int) for non-negative values)
  // ---------------------------------------------------------------------

  function DigitChar(d: nat): (c: char)
    requires d < 10
    ensures IsDigit(c)
  {
    ['0', '1', '2', '3', '4', '5', '6', '7', '8', '9'][d]
  }

  lemma DigitCharInjective(a: nat, b: nat)
    requires a < 10 && b < 10 && DigitChar(a) == DigitChar(b)
    ensures a == b
  {
  }

  /** The decimal digits of `n`, most significant first. */
  function NatToString(n: nat): (r: string)
    ensures |r| >= 1 && forall i :: 0 <= i < |r| ==> IsDigit(r[i])
  {
    if n < 10 then [DigitChar(n)] else NatToString(n / 10) + [DigitChar(n % 10)]
  }

  /** Different numbers print differently (so the ids `queue-<n>` never collide). */
  lemma {:induction false} NatToStringInjective(a: nat, b: nat)
    requires NatToString(a) == NatToString(b)
    ensures a == b
  {
    if a >= 10 && b >= 10 {
      var x, y := NatToString(a), NatToString(b);
      assert x[|x| - 1] == y[|y| - 1];
      DigitCharInjective(a % 10, b % 10);
      assert x[..|x| - 1] == NatToString(a / 10);
      assert y[..|y| - 1] == NatToString(b / 10);
      NatToStringInjective(a / 10, b / 10);
    }
  }
}
