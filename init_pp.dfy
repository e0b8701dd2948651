/**
 * The Puppet manifest reconciler (`InitPpService`). The manifest declares
 * one class parameter per address, e.g.
 *   `  $address_<var>      = '<name>',`
 * inside `class icc_artemis_broker ( ... ) {`, and checks each of them with a
 * `validate_string($address_<var>)` call between `# VALIDATES` and
 * `# REPOS`. A request adds the declarations it still lacks, aligned on the
 * `=` column the file already uses, and the matching validation calls.
 */
module InitPp {
  import opened Wrappers
  import opened Text
  import opened Identifiers
  import opened Request

  /** The `=` column used when no existing parameter line can be measured. */
  const DefaultAlignmentColumn: int := 60

  /** The class header the rewritten parameter block is written under. */
  const ClassHeader: string := "class icc_artemis_broker ("

  // ---------------------------------------------------------------------
  // Existence checks: `content.matches("(?s).*" + "\\$name\\s*=" + ".*")`
  // ---------------------------------------------------------------------

  /** `name\s*=` at index `i`: the whitespace run after the name ends in '='. */
  predicate AssignsAt(s: string, name: string, i: nat) {
    StartsAt(s, name, i) && WsEnd(s, i + |name|) < |s| && s[WsEnd(s, i + |name|)] == '='
  }

  /** The variable `name` (with its `$`) is assigned somewhere in `s`. */
  predicate HasAssignment(s: string, name: string) {
    exists i :: 0 <= i <= |s| && AssignsAt(s, name, i)
  }

  function AddressVar(variableName: string): string {
    "$address_" + variableName
  }

  function MulticastVar(subscriptionVarName: string): string {
    "$multicast_" + subscriptionVarName
  }

  /** An assignment inside a piece of text is an assignment in any text containing that piece. */
  lemma AssignsAtInfix(s: string, piece: string, o: nat, name: string, i: nat)
    requires o + |piece| <= |s| && s[o..o + |piece|] == piece
    requires AssignsAt(piece, name, i)
    ensures AssignsAt(s, name, o + i)
  {
    var e := WsEnd(piece, i + |name|);
    StartsAtIff(piece, name, i);
    StartsAtIff(s, name, o + i);
    WsEndSpaces(piece, i + |name|);
    forall x | 0 <= x < |piece|
      ensures s[o + x] == piece[x]
    {
      assert s[o..o + |piece|][x] == piece[x];
    }
    assert s[o + i..o + i + |name|] == piece[i..i + |name|];
    forall k | o + i + |name| <= k < o + e
      ensures IsSpace(s[k])
    {
      assert s[k] == piece[k - o];
    }
    assert s[o + e] == piece[e];
    WsEndIs(s, o + i + |name|, o + e);
  }

  // ---------------------------------------------------------------------
  // Missing subscription variables (findMissingSubscriptions)
  // ---------------------------------------------------------------------

  /** The subscriptions whose `$multicast_` variable is not yet assigned in `content`, in order. */
  function Unassigned(content: string, subs: seq<Subscription>): (r: seq<Subscription>)
    ensures |r| <= |subs|
    ensures forall x :: x in r <==> x in subs && !HasAssignment(content, MulticastVar(ToVariableName(x.subscriptionName)))
  {
    if |subs| == 0 then []
    else
      (if HasAssignment(content, MulticastVar(ToVariableName(subs[0].subscriptionName))) then [] else [subs[0]])
      + Unassigned(content, subs[1..])
  }

  /** The legacy single subscription name, when it is given and non-empty. */
  predicate HasLegacySubscription(request: ProvisionRequest) {
    request.legacySubscriptionName.Some? && |request.legacySubscriptionName.value| > 0
  }

  /**
   * `findMissingSubscriptions`: the new subscriptions without a variable; a
   * topic request without new subscriptions falls back to its legacy name,
   * reported with the placeholder subscriber `legacy`.
   */
  function MissingSubscriptions(content: string, request: ProvisionRequest): (r: seq<Subscription>)
    ensures forall x :: x in r ==> x.isNew && !HasAssignment(content, MulticastVar(ToVariableName(x.subscriptionName)))
    ensures HasNewSubscriptions(request) ==> forall x :: x in NewSubscriptions(request) ==>
      (x in r <==> !HasAssignment(content, MulticastVar(ToVariableName(x.subscriptionName))))
    ensures !HasNewSubscriptions(request) && request.resourceType != "topic" ==> r == []
  {
    if HasNewSubscriptions(request) then Unassigned(content, NewSubscriptions(request))
    else if request.resourceType == "topic" && HasLegacySubscription(request)
      && !HasAssignment(content, MulticastVar(ToVariableName(request.legacySubscriptionName.value)))
    then [Subscription(request.legacySubscriptionName.value, "legacy", true)]
    else []
  }

  // ---------------------------------------------------------------------
  // The class parameter block: `class\s+icc_artemis_broker\s*\((.*?)\)\s*\{`
  // ---------------------------------------------------------------------

  /** `\)\s*\{` at index `k` of `t`, giving the end of the match. */
  function ClassCloseAt(t: string): nat -> Option<nat> {
    (k: nat) =>
      if k < |t| && t[k] == ')' && WsEnd(t, k + 1) < |t| && t[WsEnd(t, k + 1)] == '{'
      then Some(WsEnd(t, k + 1) + 1) else None
  }

  /**
   * The class pattern starting at index `q` of `t`: where group 1 starts,
   * where it ends (the lazy group stops at the first `)` followed by
   * `\s*\{`) and where the match ends.
   */
  function ClassParamsMatch(t: string, q: nat): (r: Option<(nat, nat, nat)>)
    ensures r.Some? ==> q < r.value.0 <= r.value.1 < r.value.2 <= |t|
  {
    if !StartsAt(t, "class", q) then None
    else
      var w := WsEnd(t, q + 5);
      if w == q + 5 || !StartsAt(t, "icc_artemis_broker", w) then None
      else
        var w2 := WsEnd(t, w + 18);
        if w2 == |t| || t[w2] != '(' then None
        else
          var close := FirstMatch(t, w2 + 1, ClassCloseAt(t));
          if close.None? then None else Some((w2 + 1, close.value.0, close.value.1))
  }

  function ClassParamsAt(s: string): nat -> Option<(nat, nat, nat)> {
    (q: nat) => ClassParamsMatch(s, q)
  }

  /** The first class block: match start, group 1 start and end, match end. */
  function FindClassParams(s: string): (r: Option<(nat, nat, nat, nat)>)
    ensures r.Some? ==> r.value.0 < r.value.1 <= r.value.2 < r.value.3 <= |s|
  {
    var f := FirstMatch(s, 0, ClassParamsAt(s));
    if f.None? then None
    else
      var p, m := f.value.0, f.value.1;
      assert ClassParamsMatch(s, p) == Some(m);
      Some((p, m.0, m.1, m.2))
  }

  // ---------------------------------------------------------------------
  // The VALIDATES section: `(#\s*VALIDATES\s*\n)(.*?)(#\s*REPOS)`
  // ---------------------------------------------------------------------

  /** `#\s*REPOS` at index `k` of `t`. */
  function ReposAt(t: string): nat -> Option<nat> {
    (k: nat) => if k < |t| && t[k] == '#' && StartsAt(t, "REPOS", WsEnd(t, k + 1)) then Some(k) else None
  }

  /**
   * The section pattern starting at index `q` of `t`: where group 1 ends
   * (after the last newline of the whitespace run that follows `VALIDATES`)
   * and where group 3, the `# REPOS` marker, starts.
   */
  function ValidatesMatch(t: string, q: nat): (r: Option<(nat, nat)>)
    ensures r.Some? ==> q < r.value.0 <= r.value.1 < |t| && t[r.value.1] == '#'
    ensures r.Some? ==> t[r.value.0 - 1] == '\n'
  {
    if q >= |t| || t[q] != '#' then None
    else
      var w := WsEnd(t, q + 1);
      if !StartsAt(t, "VALIDATES", w) then None
      else
        var nl := LastCharIn(t, '\n', w + 9, WsEnd(t, w + 9));
        if nl.None? then None
        else
          var repos := FirstMatch(t, nl.value + 1, ReposAt(t));
          if repos.None? then None else Some((nl.value + 1, repos.value.0))
  }

  function ValidatesAt(s: string): nat -> Option<(nat, nat)> {
    (q: nat) => ValidatesMatch(s, q)
  }

  lemma ValidatesAtBounds(s: string, p: nat, m: (nat, nat))
    requires ValidatesAt(s)(p) == Some(m)
    ensures p < m.0 <= m.1 < |s| && s[m.1] == '#' && s[m.0 - 1] == '\n'
  {
    assert ValidatesMatch(s, p) == Some(m);
  }

  /** The first VALIDATES section: match start, end of group 1, start of `# REPOS`. */
  function FindValidates(s: string): (r: Option<(nat, nat, nat)>)
    ensures r.Some? ==> r.value.0 < r.value.1 <= r.value.2 < |s| && s[r.value.2] == '#'
    ensures r.Some? ==> s[r.value.1 - 1] == '\n'
  {
    var f := FirstMatch(s, 0, ValidatesAt(s));
    if f.None? then None
    else
      var p, m := f.value.0, f.value.1;
      ValidatesAtBounds(s, p, m);
      Some((p, m.0, m.1))
  }

  // ---------------------------------------------------------------------
  // Alignment: `^(\s*\$[a-zA-Z0-9_]+)(\s+)=` with MULTILINE
  // ---------------------------------------------------------------------

  /** The alignment pattern at index `i`: the index of its `=`. */
  function AlignmentMatchAt(t: string, i: nat): (r: Option<nat>)
    requires i <= |t|
    ensures r.Some? ==> i + 2 < r.value < |t| && t[r.value] == '='
  {
    if !AtLineStart(t, i) then None
    else
      var a := WsEnd(t, i);
      if a == |t| || t[a] != '$' then None
      else
        var b := WordEnd(t, a + 1);
        var c := WsEnd(t, b);
        if b == a + 1 || c == b || c == |t| || t[c] != '=' then None
        else Some(c)
  }

  /** The visual width of `s` with each tab advancing to the next multiple of 4. */
  function VisualWidth(s: string): (r: nat)
    ensures |s| <= r <= 4 * |s|
  {
    if |s| == 0 then 0
    else
      var v := VisualWidth(s[..|s| - 1]);
      if s[|s| - 1] == '\t' then v + 4 - v % 4 else v + 1
  }

  /** Without tabs the visual width is the length; after a tab it is a multiple of 4. */
  lemma {:induction false} VisualWidthNoTabs(s: string)
    requires '\t' !in s
    ensures VisualWidth(s) == |s|
  {
    if |s| > 0 {
      assert '\t' !in s[..|s| - 1];
      VisualWidthNoTabs(s[..|s| - 1]);
    }
  }

  lemma VisualWidthTab(s: string)
    ensures VisualWidth(s + "\t") % 4 == 0
    ensures VisualWidth(s + "\t") > VisualWidth(s)
  {
    assert (s + "\t")[..|s|] == s;
  }

  /**
   * The visual `=` columns the `find()` loop measures: `found` so far, then
   * those of the matches from index `from` on (a search resumes after the
   * `=` of the previous match).
   */
  function ColumnsFrom(t: string, from: nat, found: seq<nat>): seq<nat>
    requires from <= |t|
    decreases |t| - from
  {
    if from == |t| then found
    else
      var m := AlignmentMatchAt(t, from);
      if m.None? then ColumnsFrom(t, from + 1, found)
      else ColumnsFrom(t, m.value + 1, found + [VisualWidth(t[from..m.value])])
  }

  lemma ColumnsFromNoMatch(t: string, from: nat, found: seq<nat>)
    requires from < |t| && AlignmentMatchAt(t, from).None?
    ensures ColumnsFrom(t, from, found) == ColumnsFrom(t, from + 1, found)
  {
  }

  lemma ColumnsFromMatch(t: string, from: nat, found: seq<nat>, c: nat, w: nat)
    requires from < |t| && AlignmentMatchAt(t, from) == Some(c)
    requires w == VisualWidth(t[from..c])
    ensures ColumnsFrom(t, from, found) == ColumnsFrom(t, c + 1, found + [w])
  {
  }

  /** All the measured columns, in text order. */
  function Columns(t: string): seq<nat> {
    ColumnsFrom(t, 0, [])
  }

  // Sorting and the median (`Collections.sort`, `positions.get(size / 2)`)

  predicate SortedAsc(s: seq<int>) {
    forall i, j :: 0 <= i < j < |s| ==> s[i] <= s[j]
  }

  /** Inserts `x` before the first element not smaller than it. */
  function InsertSorted(x: int, s: seq<int>): (r: seq<int>)
    ensures |r| == |s| + 1
  {
    if |s| == 0 || x <= s[0] then [x] + s
    else [s[0]] + InsertSorted(x, s[1..])
  }

  /** Inserting into a sorted list keeps it sorted and adds exactly `x`. */
  lemma {:induction false} InsertSortedSorted(x: int, s: seq<int>)
    requires SortedAsc(s)
    ensures SortedAsc(InsertSorted(x, s))
    ensures multiset(InsertSorted(x, s)) == multiset(s) + multiset{x}
  {
    InsertSortedPerm(x, s);
    if |s| > 0 && x > s[0] {
      var t := InsertSorted(x, s[1..]);
      InsertSortedSorted(x, s[1..]);
      assert forall i :: 0 <= i < |t| ==> s[0] <= t[i] by {
        InsertSortedAbove(x, s[1..], s[0]);
      }
    }
  }

  /** Inserting adds exactly `x`. */
  lemma {:induction false} InsertSortedPerm(x: int, s: seq<int>)
    ensures multiset(InsertSorted(x, s)) == multiset(s) + multiset{x}
  {
    if |s| > 0 && x > s[0] {
      InsertSortedPerm(x, s[1..]);
      assert s == [s[0]] + s[1..];
    }
  }

  /** A lower bound of `x` and of every element bounds every element after inserting. */
  lemma {:induction false} InsertSortedAbove(x: int, s: seq<int>, lo: int)
    requires lo <= x && forall i :: 0 <= i < |s| ==> lo <= s[i]
    ensures forall i :: 0 <= i < |InsertSorted(x, s)| ==> lo <= InsertSorted(x, s)[i]
  {
    if |s| > 0 && x > s[0] {
      InsertSortedAbove(x, s[1..], lo);
    }
  }

  /** The list in ascending order. */
  function SortAsc(xs: seq<int>): (r: seq<int>)
    ensures |r| == |xs|
    ensures SortedAsc(r) && multiset(r) == multiset(xs)
  {
    if |xs| == 0 then []
    else
      assert xs == [xs[0]] + xs[1..];
      var t := SortAsc(xs[1..]);
      InsertSortedSorted(xs[0], t);
      InsertSorted(xs[0], t)
  }

  /** `x < m` when `strict`, `x <= m` otherwise. */
  predicate Below(x: int, m: int, strict: bool) {
    if strict then x < m else x <= m
  }

  /** How many elements of `xs` lie below `m` (strictly, or not). */
  function Count(xs: seq<int>, m: int, strict: bool): nat {
    if |xs| == 0 then 0 else (if Below(xs[0], m, strict) then 1 else 0) + Count(xs[1..], m, strict)
  }

  lemma {:induction false} CountAppend(a: seq<int>, b: seq<int>, m: int, strict: bool)
    ensures Count(a + b, m, strict) == Count(a, m, strict) + Count(b, m, strict)
  {
    if |a| > 0 {
      assert (a + b)[1..] == a[1..] + b;
      CountAppend(a[1..], b, m, strict);
    } else {
      assert a + b == b;
    }
  }

  /** Taking out the element at `j` takes its share out of the count. */
  lemma RemoveAt(ys: seq<int>, j: nat, m: int, strict: bool)
    requires j < |ys|
    ensures Count(ys, m, strict) == Count(ys[..j] + ys[j + 1..], m, strict) + Count([ys[j]], m, strict)
  {
    var a, b := ys[..j], ys[j + 1..];
    assert ys == a + [ys[j]] + b;
    CountAppend(a + [ys[j]], b, m, strict);
    CountAppend(a, [ys[j]], m, strict);
    CountAppend(a, b, m, strict);
  }

  /** Counting does not depend on the order. */
  lemma {:induction false} CountPermutation(xs: seq<int>, ys: seq<int>, m: int, strict: bool)
    requires multiset(xs) == multiset(ys)
    decreases |xs|
    ensures Count(xs, m, strict) == Count(ys, m, strict)
  {
    if |xs| > 0 {
      var j := MatchingTail(xs, ys);
      var rest := ys[..j] + ys[j + 1..];
      RemoveAt(ys, j, m, strict);
      CountPermutation(xs[1..], rest, m, strict);
    } else {
      assert |ys| == |multiset(ys)| == 0;
    }
  }

  /** Where the head of `xs` sits in a permutation `ys` of it; the tails left are permutations of each other. */
  lemma MatchingTail(xs: seq<int>, ys: seq<int>) returns (j: nat)
    requires multiset(xs) == multiset(ys) && |xs| > 0
    ensures j < |ys| && ys[j] == xs[0]
    ensures multiset(xs[1..]) == multiset(ys[..j] + ys[j + 1..])
  {
    var x := xs[0];
    assert x in multiset(ys);
    j :| 0 <= j < |ys| && ys[j] == x;
    var a, b := ys[..j], ys[j + 1..];
    assert ys == a + [x] + b;
    assert multiset(ys) == multiset(a) + multiset{x} + multiset(b);
    assert multiset(a + b) == multiset(a) + multiset(b);
    assert xs == [x] + xs[1..];
    assert multiset(xs) == multiset{x} + multiset(xs[1..]);
    assert multiset(xs[1..]) == multiset(xs) - multiset{x};
    assert multiset(a + b) == multiset(ys) - multiset{x};
  }

  /** A count is at most the length, all of it when every element qualifies, none when none does. */
  lemma {:induction false} CountBounds(xs: seq<int>, m: int, strict: bool)
    ensures Count(xs, m, strict) <= |xs|
    ensures (forall i :: 0 <= i < |xs| ==> Below(xs[i], m, strict)) ==> Count(xs, m, strict) == |xs|
    ensures (forall i :: 0 <= i < |xs| ==> !Below(xs[i], m, strict)) ==> Count(xs, m, strict) == 0
  {
    if |xs| > 0 {
      CountBounds(xs[1..], m, strict);
    }
  }

  /** In a sorted list nothing from index `h` on lies strictly below `s[h]`. */
  lemma SortedNoneBelow(s: seq<int>, h: nat)
    requires SortedAsc(s) && h < |s|
    ensures Count(s[h..], s[h], true) == 0
  {
    var upper := s[h..];
    forall i | 0 <= i < |upper|
      ensures !Below(upper[i], s[h], true)
    {
      assert upper[i] == s[h + i];
    }
    CountBounds(upper, s[h], true);
  }

  /** In a sorted list everything up to index `h` lies at or below `s[h]`. */
  lemma SortedAllAtOrBelow(s: seq<int>, h: nat)
    requires SortedAsc(s) && h < |s|
    ensures Count(s[..h + 1], s[h], false) == h + 1
  {
    var lower := s[..h + 1];
    forall i | 0 <= i < |lower|
      ensures Below(lower[i], s[h], false)
    {
      assert lower[i] == s[i];
    }
    CountBounds(lower, s[h], false);
  }

  /** In a sorted list the middle element has at most half the list strictly below it. */
  lemma MedianOfSorted(s: seq<int>)
    requires SortedAsc(s) && |s| > 0
    ensures Count(s, s[|s| / 2], true) <= |s| / 2 < Count(s, s[|s| / 2], false)
  {
    var h := |s| / 2;
    var m := s[h];
    SortedNoneBelow(s, h);
    SortedAllAtOrBelow(s, h);
    CountSplit(s, h, m, true);
    CountBounds(s[..h], m, true);
    CountSplit(s, h + 1, m, false);
  }

  lemma CountSplit(s: seq<int>, n: nat, m: int, strict: bool)
    requires n <= |s|
    ensures Count(s, m, strict) == Count(s[..n], m, strict) + Count(s[n..], m, strict)
  {
    assert s == s[..n] + s[n..];
    CountAppend(s[..n], s[n..], m, strict);
  }

  /** `detectAlignmentColumn`: the median measured column plus 4, or 60 when nothing is measured. */
  function AlignmentColumn(classParams: string): int {
    MedianColumn(Columns(classParams))
  }

  /** The column chosen from the measured ones: 60 for none, else the sorted middle one plus 4. */
  function MedianColumn(positions: seq<int>): int {
    if |positions| == 0 then DefaultAlignmentColumn else SortAsc(positions)[|positions| / 2] + 4
  }

  /**
   * The chosen column is 4 past a median of the measured columns: the
   * column is one of them, at most half of them (rounded down) lie left of
   * it and more than half lie at or left of it.
   */
  lemma MedianColumnIsMedian(positions: seq<int>)
    requires |positions| > 0
    ensures var m := MedianColumn(positions) - 4;
      m in positions && Count(positions, m, true) <= |positions| / 2 < Count(positions, m, false)
  {
    var m := SortedMedian(positions);
    assert MedianColumn(positions) - 4 == m;
  }

  /** The middle element of the sorted list is a median of the unsorted one. */
  lemma SortedMedian(positions: seq<int>) returns (m: int)
    requires |positions| > 0
    ensures m == SortAsc(positions)[|positions| / 2]
    ensures m in positions && Count(positions, m, true) <= |positions| / 2 < Count(positions, m, false)
  {
    var s := SortAsc(positions);
    m := s[|s| / 2];
    assert m in multiset(s);
    MedianOfSorted(s);
    CountPermutation(positions, s, m, true);
    CountPermutation(positions, s, m, false);
  }

  /** One step of the `find()` loop's inner character loop. */
  method MeasureVisualWidth(s: string) returns (visualPosition: nat)
    ensures visualPosition == VisualWidth(s)
  {
    visualPosition := 0;
    for i := 0 to |s|
      invariant visualPosition == VisualWidth(s[..i])
    {
      assert s[..i + 1][..i] == s[..i];
      if s[i] == '\t' {
        visualPosition := visualPosition + 4 - visualPosition % 4;
      } else {
        visualPosition := visualPosition + 1;
      }
    }
    assert s[..|s|] == s;
  }

  /** One step of the `find()` loop: a match at `pos` records its column and resumes after its `=`. */
  method ColumnStep(t: string, pos: nat, positions: seq<nat>) returns (next: nat, measured: seq<nat>)
    requires pos < |t|
    ensures pos < next <= |t|
    ensures ColumnsFrom(t, next, measured) == ColumnsFrom(t, pos, positions)
  {
    var found := AlignmentMatchAt(t, pos);
    if found.None? {
      ColumnsFromNoMatch(t, pos, positions);
      next, measured := pos + 1, positions;
    } else {
      next, measured := RecordColumn(t, pos, positions, found.value);
      ColumnsFromMatch(t, pos, positions, found.value, measured[|positions|]);
    }
  }

  /** The body of the `find()` loop for a match at `pos` whose `=` is at `c`: measure the text before it. */
  method RecordColumn(t: string, pos: nat, positions: seq<nat>, c: nat) returns (next: nat, measured: seq<nat>)
    requires pos < c < |t|
    ensures next == c + 1
    ensures measured == positions + [VisualWidth(t[pos..c])]
  {
    var before := t[pos..c];
    var visualPosition := MeasureVisualWidth(before);
    next, measured := c + 1, positions + [visualPosition];
  }

  /** The `find()` loop of `detectAlignmentColumn`: the visual `=` column of each match, in order. */
  method MeasureColumns(classParams: string) returns (positions: seq<nat>)
    ensures positions == Columns(classParams)
  {
    positions := [];
    var pos := 0;
    while pos < |classParams|
      invariant pos <= |classParams|
      invariant ColumnsFrom(classParams, pos, positions) == Columns(classParams)
      decreases |classParams| - pos
    {
      pos, positions := ColumnStep(classParams, pos, positions);
    }
  }

  /** `detectAlignmentColumn(classParams)` */
  method DetectAlignmentColumn(classParams: string) returns (column: int)
    ensures column == AlignmentColumn(classParams)
  {
    var positions := MeasureColumns(classParams);
    assert AlignmentColumn(classParams) == MedianColumn(positions);
    if |positions| == 0 {
      column := DefaultAlignmentColumn;
    } else {
      var sorted := SortAsc(positions);
      column := sorted[|positions| / 2] + 4;
    }
  }

  // ---------------------------------------------------------------------
  // Declaration and validation lines
  // ---------------------------------------------------------------------

  /** The leading part of a declaration: `  $<prefix>_<variableName>`. */
  function DeclarationHead(prefix: string, variableName: string): string {
    "  $" + prefix + "_" + variableName
  }

  /** Where `formatParameterLine` puts the `=`: at the column, but at least one space after the name. */
  function EqualsIndex(prefix: string, variableName: string, alignmentColumn: int): nat {
    var n := |DeclarationHead(prefix, variableName)|;
    if alignmentColumn - n < 1 then n + 1 else alignmentColumn
  }

  /** `formatParameterLine`: `  $<prefix>_<var>`, spaces up to the column, `= '<value>',`. */
  function FormatParameterLine(prefix: string, variableName: string, value: string, alignmentColumn: int): (r: string)
    ensures |r| == EqualsIndex(prefix, variableName, alignmentColumn) + 5 + |value|
  {
    var head := DeclarationHead(prefix, variableName);
    var padding := if alignmentColumn - |head| < 1 then 1 else alignmentColumn - |head|;
    head + Repeat(' ', padding) + "= '" + value + "',"
  }

  /**
   * A formatted line declares its variable: the name starts at index 2 and
   * only spaces separate it from the `=` at `EqualsIndex`.
   */
  lemma FormatParameterLineAssigns(prefix: string, variableName: string, value: string, alignmentColumn: int)
    ensures var r := FormatParameterLine(prefix, variableName, value, alignmentColumn);
      var eq := EqualsIndex(prefix, variableName, alignmentColumn);
      AssignsAt(r, "$" + prefix + "_" + variableName, 2)
      && WsEnd(r, |DeclarationHead(prefix, variableName)|) == eq && r[eq] == '='
  {
    var r := FormatParameterLine(prefix, variableName, value, alignmentColumn);
    var head := DeclarationHead(prefix, variableName);
    var eq := EqualsIndex(prefix, variableName, alignmentColumn);
    var name := "$" + prefix + "_" + variableName;
    assert head == "  " + name;
    assert r[..|head|] == head;
    assert r[2..2 + |name|] == name;
    StartsAtIff(r, name, 2);
    assert r[eq] == '=';
    WsEndIs(r, |head|, eq);
  }

  /**
   * What `formatParameterLine` writes is what `detectAlignmentColumn`
   * measures: for a word-char name, the alignment pattern finds the line and
   * measures its `=` at the requested column (or one past the name).
   */
  lemma FormatParameterLineMeasured(prefix: string, variableName: string, value: string, alignmentColumn: int)
    requires forall i :: 0 <= i < |prefix| ==> IsWordChar(prefix[i])
    requires forall i :: 0 <= i < |variableName| ==> IsWordChar(variableName[i])
    ensures var r := FormatParameterLine(prefix, variableName, value, alignmentColumn);
      AlignmentMatchAt(r, 0) == Some(EqualsIndex(prefix, variableName, alignmentColumn))
      && VisualWidth(r[..EqualsIndex(prefix, variableName, alignmentColumn)]) == EqualsIndex(prefix, variableName, alignmentColumn)
  {
    var r := FormatParameterLine(prefix, variableName, value, alignmentColumn);
    var head := DeclarationHead(prefix, variableName);
    var eq := EqualsIndex(prefix, variableName, alignmentColumn);
    FormatParameterLineAssigns(prefix, variableName, value, alignmentColumn);
    assert r[..|head|] == head;
    WsEndIs(r, 0, 2);
    assert r[2] == '$';
    forall k | 3 <= k < |head|
      ensures IsWordChar(r[k])
    {
      assert r[k] == head[k];
      if k < 3 + |prefix| {
        assert head[k] == prefix[k - 3];
      } else if k > 3 + |prefix| {
        assert head[k] == variableName[k - 4 - |prefix|];
      }
    }
    assert !IsWordChar(r[|head|]);
    assert WordEnd(r, 3) == |head| by {
      WordEndIs(r, 3, |head|);
    }
    assert '\t' !in r[..eq] by {
      forall k | 0 <= k < eq
        ensures r[k] != '\t'
      {
        assert k < |head| ==> r[k] == head[k];
      }
    }
    VisualWidthNoTabs(r[..eq]);
  }

  /** `validate_string($<prefix>_<variableName>)` */
  function ValidationLine(prefix: string, variableName: string): string {
    "validate_string($" + prefix + "_" + variableName + ")"
  }

  /** The subscription names a topic request declares: its new subscriptions', else its legacy name. */
  function DeclaredSubscriptionNames(request: ProvisionRequest): (r: seq<string>)
    ensures HasNewSubscriptions(request) ==>
      |r| == |NewSubscriptions(request)| && forall i :: 0 <= i < |r| ==> r[i] == NewSubscriptions(request)[i].subscriptionName
    ensures !HasNewSubscriptions(request) ==> r == if HasLegacySubscription(request) then [request.legacySubscriptionName.value] else []
  {
    if HasNewSubscriptions(request) then
      var subs := NewSubscriptions(request);
      seq(|subs|, i requires 0 <= i < |subs| => subs[i].subscriptionName)
    else if HasLegacySubscription(request) then [request.legacySubscriptionName.value]
    else []
  }

  /** One generated parameter: `$<prefix>_<variableName>` holding `value`. */
  datatype Param = Param(prefix: string, variableName: string, value: string)

  /**
   * The parameters `generateParameterLines` and `generateValidationLines`
   * both walk, in order.
   */
  function GeneratedParams(variableName: string, request: ProvisionRequest): seq<Param> {
    if request.resourceType == "queue" then
      [Param("address", variableName, request.name), Param("anycast", variableName, request.name)]
    else
      var names := DeclaredSubscriptionNames(request);
      [Param("address", variableName, request.name)]
      + seq(|names|, i requires 0 <= i < |names| => Param("multicast", ToVariableName(names[i]), names[i]))
  }

  /**
   * A queue gets `address` and `anycast` for its name; any other type gets
   * `address`, then one `multicast` per new subscription, named after the
   * subscription and holding its name, or else one for the legacy name.
   */
  lemma GeneratedParamsShape(variableName: string, request: ProvisionRequest)
    ensures request.resourceType == "queue" ==>
      GeneratedParams(variableName, request)
        == [Param("address", variableName, request.name), Param("anycast", variableName, request.name)]
    ensures request.resourceType != "queue" && HasNewSubscriptions(request) ==>
      var r, subs := GeneratedParams(variableName, request), NewSubscriptions(request);
      |r| == 1 + |subs| && r[0] == Param("address", variableName, request.name)
      && forall i :: 0 <= i < |subs| ==>
        r[i + 1] == Param("multicast", ToVariableName(subs[i].subscriptionName), subs[i].subscriptionName)
    ensures request.resourceType != "queue" && !HasNewSubscriptions(request) && HasLegacySubscription(request) ==>
      var l := request.legacySubscriptionName.value;
      GeneratedParams(variableName, request)
        == [Param("address", variableName, request.name), Param("multicast", ToVariableName(l), l)]
    ensures request.resourceType != "queue" && !HasNewSubscriptions(request) && !HasLegacySubscription(request) ==>
      GeneratedParams(variableName, request) == [Param("address", variableName, request.name)]
  {
    if request.resourceType != "queue" {
      var r := GeneratedParams(variableName, request);
      var names := DeclaredSubscriptionNames(request);
      var tail := seq(|names|, i requires 0 <= i < |names| => Param("multicast", ToVariableName(names[i]), names[i]));
      assert r == [Param("address", variableName, request.name)] + tail;
      if HasNewSubscriptions(request) {
        var subs := NewSubscriptions(request);
        forall i | 0 <= i < |subs|
          ensures r[i + 1] == Param("multicast", ToVariableName(subs[i].subscriptionName), subs[i].subscriptionName)
        {
          assert r[i + 1] == tail[i];
        }
      } else if HasLegacySubscription(request) {
        assert tail == [tail[0]];
      } else {
        assert tail == [];
      }
    }
  }

  /** `generateParameterLines`: one formatted declaration per generated parameter. */
  function ParameterLines(variableName: string, request: ProvisionRequest, alignmentColumn: int): seq<string> {
    var ps := GeneratedParams(variableName, request);
    seq(|ps|, i requires 0 <= i < |ps| => FormatParameterLine(ps[i].prefix, ps[i].variableName, ps[i].value, alignmentColumn))
  }

  /** `generateValidationLines`: one `validate_string` per generated parameter. */
  function ValidationLines(variableName: string, request: ProvisionRequest): seq<string> {
    var ps := GeneratedParams(variableName, request);
    seq(|ps|, i requires 0 <= i < |ps| => ValidationLine(ps[i].prefix, ps[i].variableName))
  }

  /**
   * Every generated declaration has its validation at the same position:
   * the i-th validation line is `validate_string(<name>)` for exactly the
   * variable the i-th declaration line assigns.
   */
  lemma ParameterAndValidationLinesAgree(variableName: string, request: ProvisionRequest, alignmentColumn: int)
    ensures var decls := ParameterLines(variableName, request, alignmentColumn);
      var checks := ValidationLines(variableName, request);
      |decls| == |checks|
      && forall i :: 0 <= i < |checks| ==>
        |checks[i]| > 17 && checks[i][..16] == "validate_string(" && checks[i][|checks[i]| - 1] == ')'
        && AssignsAt(decls[i], checks[i][16..|checks[i]| - 1], 2)
  {
    var decls := ParameterLines(variableName, request, alignmentColumn);
    var checks := ValidationLines(variableName, request);
    var ps := GeneratedParams(variableName, request);
    forall i | 0 <= i < |checks|
      ensures |checks[i]| > 17 && checks[i][..16] == "validate_string(" && checks[i][|checks[i]| - 1] == ')'
        && AssignsAt(decls[i], checks[i][16..|checks[i]| - 1], 2)
    {
      ValidationLineNames(ps[i].prefix, ps[i].variableName);
      FormatParameterLineAssigns(ps[i].prefix, ps[i].variableName, ps[i].value, alignmentColumn);
    }
  }

  /** Every request declares its address first. */
  lemma AddressLineFirst(variableName: string, request: ProvisionRequest, alignmentColumn: int)
    ensures var decls := ParameterLines(variableName, request, alignmentColumn);
      |decls| > 0 && decls[0] == FormatParameterLine("address", variableName, request.name, alignmentColumn)
  {
  }

  /** A validation line wraps the variable name `$<prefix>_<variableName>`. */
  lemma ValidationLineNames(prefix: string, variableName: string)
    ensures var l := ValidationLine(prefix, variableName);
      |l| > 17 && l[..16] == "validate_string(" && l[|l| - 1] == ')'
      && l[16..|l| - 1] == "$" + prefix + "_" + variableName
  {
    var l := ValidationLine(prefix, variableName);
    assert l == "validate_string(" + ("$" + prefix + "_" + variableName) + ")";
  }

  // ---------------------------------------------------------------------
  // Rewriting the class parameter block
  // ---------------------------------------------------------------------

  /** A line that declares something: it holds both `$` and `=`. */
  predicate IsParamLine(line: string) {
    '$' in line && '=' in line
  }

  /** Trimming the line first, as the scan does, changes nothing: trim never removes `$` or `=`. */
  lemma IsParamLineTrimmed(line: string)
    ensures IsParamLine(Trim(line)) <==> IsParamLine(line)
  {
    TrimKeeps(line, '$');
    TrimKeeps(line, '=');
  }

  /** The last declaring line. */
  function LastParamLine(lines: seq<string>): (r: Option<nat>)
    ensures r.Some? ==> r.value < |lines| && IsParamLine(lines[r.value])
    ensures r.Some? ==> forall j :: r.value < j < |lines| ==> !IsParamLine(lines[j])
    ensures r.None? ==> forall j :: 0 <= j < |lines| ==> !IsParamLine(lines[j])
  {
    if |lines| == 0 then None
    else if IsParamLine(lines[|lines| - 1]) then Some(|lines| - 1)
    else LastParamLine(lines[..|lines| - 1])
  }

  /**
   * The parameter lines after the insertion: the new lines follow the last
   * declaring line after a blank line (two when more lines follow it, since
   * that line already ends in a newline); the list ends in an empty line
   * when the declaring line was the last one. Nothing is inserted when no
   * line declares anything.
   */
  function Spliced(lines: seq<string>, newLines: seq<string>): seq<string> {
    SplicedAfter(lines, LastParamLine(lines), newLines)
  }

  /** The splice after line `last`, when there is one. */
  function SplicedAfter(lines: seq<string>, last: Option<nat>, newLines: seq<string>): seq<string>
    requires last.Some? ==> last.value < |lines|
  {
    if last.None? then lines
    else if last.value + 1 < |lines| then lines[..last.value + 1] + ["", ""] + newLines + lines[last.value + 1..]
    else lines + [""] + newLines + [""]
  }

  /** The text of the rewritten parameter block. */
  function ParamsText(classParams: string, newLines: seq<string>): string {
    Join(Spliced(JavaSplit(classParams, '\n'), newLines), "\n")
  }

  /** What a declaration request adds: everything for a new address, or one subscription. */
  datatype Declarations =
    | AllOf(variableName: string, request: ProvisionRequest)
    | SubscriptionOnly(subscriptionVarName: string, subscriptionValue: string)

  function DeclarationLines(d: Declarations, alignmentColumn: int): seq<string> {
    match d
    case AllOf(v, request) => ParameterLines(v, request, alignmentColumn)
    case SubscriptionOnly(v, value) => [FormatParameterLine("multicast", v, value, alignmentColumn)]
  }

  /**
   * `addClassParameters` / `addSubscriptionParameter`: the class block is
   * rewritten under a normalised header with the new declarations spliced
   * in; without a class block the content is returned as it is.
   */
  function WithDeclarations(content: string, d: Declarations): string {
    var found := FindClassParams(content);
    if found.None? then content
    else
      var classParams := content[found.value.1..found.value.2];
      content[..found.value.0] + ClassHeader
      + ParamsText(classParams, DeclarationLines(d, AlignmentColumn(classParams)))
      + (") {" + content[found.value.3..])
  }

  /** The loop that rebuilds the parameter block, one line and its newline at a time. */
  function Rebuilt(lines: seq<string>, i: nat, last: Option<nat>, newLines: seq<string>): string
    requires i <= |lines|
  {
    if i == 0 then []
    else
      Rebuilt(lines, i - 1, last, newLines) + lines[i - 1]
      + (if i - 1 < |lines| - 1 then "\n" else "")
      + (if last == Some(i - 1) then "\n\n" + Lines(newLines) else "")
  }

  /** The lines spliced so far, while the loop is before the last line. */
  function SplicedPrefix(lines: seq<string>, i: nat, last: Option<nat>, newLines: seq<string>): seq<string>
    requires i <= |lines|
  {
    if last.Some? && last.value < i then lines[..last.value + 1] + ["", ""] + newLines + lines[last.value + 1..i]
    else lines[..i]
  }

  lemma {:induction false} RebuiltPrefix(lines: seq<string>, i: nat, last: Option<nat>, newLines: seq<string>)
    requires i < |lines|
    ensures Rebuilt(lines, i, last, newLines) == Lines(SplicedPrefix(lines, i, last, newLines))
  {
    if i > 0 {
      RebuiltPrefix(lines, i - 1, last, newLines);
      var prev := SplicedPrefix(lines, i - 1, last, newLines);
      var l := lines[i - 1];
      if last == Some(i - 1) {
        RebuiltPrefixAtLast(lines, i, last, newLines, prev);
      } else {
        calc {
          Rebuilt(lines, i, last, newLines);
          Lines(prev) + l + "\n";
          { LinesSingle(l); LinesAppend(prev, [l]); }
          Lines(prev + [l]);
          { SplicedPrefixStep(lines, i, last, newLines); }
          Lines(SplicedPrefix(lines, i, last, newLines));
        }
      }
    }
  }

  lemma LinesSingle(l: string)
    ensures Lines([l]) == l + "\n"
  {
    assert [l][1..] == [];
  }

  /** Away from the last declaring line, the splice grows by one line. */
  lemma SplicedPrefixStep(lines: seq<string>, i: nat, last: Option<nat>, newLines: seq<string>)
    requires 0 < i <= |lines| && last != Some(i - 1)
    ensures SplicedPrefix(lines, i, last, newLines) == SplicedPrefix(lines, i - 1, last, newLines) + [lines[i - 1]]
  {
    if last.Some? && last.value < i - 1 {
      assert lines[last.value + 1..i] == lines[last.value + 1..i - 1] + [lines[i - 1]];
    } else {
      assert lines[..i] == lines[..i - 1] + [lines[i - 1]];
    }
  }

  /** The step of `RebuiltPrefix` at the last declaring line. */
  lemma RebuiltPrefixAtLast(lines: seq<string>, i: nat, last: Option<nat>, newLines: seq<string>, prev: seq<string>)
    requires 0 < i < |lines| && last == Some(i - 1)
    requires prev == SplicedPrefix(lines, i - 1, last, newLines)
    requires Rebuilt(lines, i - 1, last, newLines) == Lines(prev)
    ensures Rebuilt(lines, i, last, newLines) == Lines(SplicedPrefix(lines, i, last, newLines))
  {
    var l := lines[i - 1];
    calc {
      Rebuilt(lines, i, last, newLines);
      Lines(prev) + l + "\n" + ("\n\n" + Lines(newLines));
      { LinesSingle(l); LinesPair(""); }
      Lines(prev) + Lines([l]) + Lines(["", ""]) + Lines(newLines);
      { LinesAppend(prev, [l]); LinesAppend(prev + [l], ["", ""]); LinesAppend(prev + [l] + ["", ""], newLines); }
      Lines(prev + [l] + ["", ""] + newLines);
      {
        assert prev == lines[..i - 1];
        assert lines[..i] == prev + [l];
        assert lines[i..i] == [];
        assert SplicedPrefix(lines, i, last, newLines) == lines[..i] + ["", ""] + newLines + lines[i..i];
        assert lines[..i] + ["", ""] + newLines + lines[i..i] == prev + [l] + ["", ""] + newLines;
      }
      Lines(SplicedPrefix(lines, i, last, newLines));
    }
  }

  /** The rebuilding loop writes the spliced lines joined by newlines. */
  lemma RebuiltIsSpliced(lines: seq<string>, last: Option<nat>, newLines: seq<string>)
    requires last.Some? ==> last.value < |lines|
    ensures Rebuilt(lines, |lines|, last, newLines) == Join(SplicedAfter(lines, last, newLines), "\n")
  {
    var n := |lines|;
    if n > 0 {
      RebuiltPrefix(lines, n - 1, last, newLines);
      var prev := SplicedPrefix(lines, n - 1, last, newLines);
      var l := lines[n - 1];
      if last == Some(n - 1) {
        RebuiltAtLast(lines, last, newLines, prev);
      } else {
        calc {
          Rebuilt(lines, n, last, newLines);
          Lines(prev) + l;
          { JoinAsLines(prev, l); }
          Join(prev + [l], "\n");
          { SplicedAfterOther(lines, last, newLines, prev); }
          Join(SplicedAfter(lines, last, newLines), "\n");
        }
      }
    }
  }

  lemma SplicedAfterOther(lines: seq<string>, last: Option<nat>, newLines: seq<string>, prev: seq<string>)
    requires |lines| > 0 && (last.Some? ==> last.value < |lines| - 1)
    requires prev == SplicedPrefix(lines, |lines| - 1, last, newLines)
    ensures SplicedAfter(lines, last, newLines) == prev + [lines[|lines| - 1]]
  {
    var n := |lines|;
    if last.Some? {
      var k := last.value;
      assert lines[k + 1..] == lines[k + 1..n - 1] + [lines[n - 1]];
    } else {
      assert lines == lines[..n - 1] + [lines[n - 1]];
    }
  }

  /** `RebuiltIsSpliced` when the last line is the last declaring line. */
  lemma RebuiltAtLast(lines: seq<string>, last: Option<nat>, newLines: seq<string>, prev: seq<string>)
    requires |lines| > 0 && last == Some(|lines| - 1)
    requires prev == SplicedPrefix(lines, |lines| - 1, last, newLines)
    requires Rebuilt(lines, |lines| - 1, last, newLines) == Lines(prev)
    ensures Rebuilt(lines, |lines|, last, newLines) == Join(SplicedAfter(lines, last, newLines), "\n")
  {
    var l := lines[|lines| - 1];
    var front := prev + [l, ""] + newLines;
    calc {
      Rebuilt(lines, |lines|, last, newLines);
      Lines(prev) + l + ("\n\n" + Lines(newLines));
      { LinesPair(l); }
      Lines(prev) + Lines([l, ""]) + Lines(newLines);
      { LinesAppend(prev, [l, ""]); LinesAppend(prev + [l, ""], newLines); }
      Lines(front);
      { JoinAsLines(front, ""); }
      Join(front + [""], "\n");
      { SplicedAfterLast(lines, last, newLines, prev, front); }
      Join(SplicedAfter(lines, last, newLines), "\n");
    }
  }

  lemma LinesPair(l: string)
    ensures Lines([l, ""]) == l + "\n\n"
  {
    assert [l, ""][1..] == [""];
    assert [""][1..] == [];
  }

  lemma SplicedAfterLast(lines: seq<string>, last: Option<nat>, newLines: seq<string>, prev: seq<string>, front: seq<string>)
    requires |lines| > 0 && last == Some(|lines| - 1)
    requires prev == SplicedPrefix(lines, |lines| - 1, last, newLines)
    requires front == prev + [lines[|lines| - 1], ""] + newLines
    ensures SplicedAfter(lines, last, newLines) == front + [""]
  {
    assert lines == prev + [lines[|lines| - 1]];
  }

  /** The backward scan of `addClassParameters`: the index of the last declaring line, or -1. */
  method FindLastParamLine(lines: seq<string>) returns (index: int)
    ensures LastParamLine(lines).None? ==> index == -1
    ensures LastParamLine(lines).Some? ==> index == LastParamLine(lines).value
  {
    index := -1;
    var i := |lines| - 1;
    while i >= 0
      invariant -1 <= i < |lines|
      invariant LastParamLine(lines) == LastParamLine(lines[..i + 1])
    {
      assert lines[..i + 1][..i] == lines[..i];
      IsParamLineTrimmed(lines[i]);
      if IsParamLine(Trim(lines[i])) {
        index := i;
        return;
      }
      i := i - 1;
    }
  }

  /** Each line followed by a newline, as the StringBuilder loop appends them. */
  method BuildLines(xs: seq<string>) returns (block: string)
    ensures block == Lines(xs)
  {
    block := "";
    for j := 0 to |xs|
      invariant block == Lines(xs[..j])
    {
      LinesAppend(xs[..j], [xs[j]]);
      LinesSingle(xs[j]);
      assert xs[..j + 1] == xs[..j] + [xs[j]];
      block := block + xs[j] + "\n";
    }
    assert xs[..|xs|] == xs;
  }

  /** The StringBuilder loop of `addClassParameters`. */
  method RebuildClassParams(lines: seq<string>, newLines: seq<string>) returns (text: string)
    ensures text == Join(Spliced(lines, newLines), "\n")
  {
    var lastParamLineIndex := FindLastParamLine(lines);
    ghost var last := LastParamLine(lines);
    var block := BuildLines(newLines);
    text := "";
    for j := 0 to |lines|
      invariant text == Rebuilt(lines, j, last, newLines)
    {
      text := text + lines[j];
      if j < |lines| - 1 {
        text := text + "\n";
      }
      if j == lastParamLineIndex {
        text := text + "\n\n" + block;
      }
    }
    RebuiltIsSpliced(lines, last, newLines);
  }

  /** `addClassParameters` (for `AllOf`) and `addSubscriptionParameter` (for `SubscriptionOnly`). */
  method AddDeclarations(content: string, d: Declarations) returns (r: string)
    ensures r == WithDeclarations(content, d)
  {
    var found := FindClassParams(content);
    if found.None? {
      return content;
    }
    var (p, g, k, e) := found.value;
    var classParams := content[g..k];
    var lines := JavaSplit(classParams, '\n');
    var alignmentColumn := DetectAlignmentColumn(classParams);
    var newLines := DeclarationLines(d, alignmentColumn);
    var newClassParams := RebuildClassParams(lines, newLines);
    r := content[..p] + ClassHeader + newClassParams + ") {" + content[e..];
  }

  /**
   * Each generated declaration is visible to the existence check once the
   * block has been rewritten, provided the block was found and already
   * declared something.
   */
  lemma WithDeclarationsAssigns(content: string, d: Declarations, prefix: string, v: string, value: string, col: int)
    requires FindClassParams(content).Some?
    requires var (_, g, k, _) := FindClassParams(content).value;
      LastParamLine(JavaSplit(content[g..k], '\n')).Some?
      && col == AlignmentColumn(content[g..k])
      && FormatParameterLine(prefix, v, value, col) in DeclarationLines(d, col)
    ensures HasAssignment(WithDeclarations(content, d), "$" + prefix + "_" + v)
  {
    var found := FindClassParams(content).value;
    var p, g, k, e := found.0, found.1, found.2, found.3;
    var newLines := DeclarationLines(d, col);
    DeclaredInBlock(content[..p] + ClassHeader, content[g..k], newLines, ") {" + content[e..], prefix, v, value, col);
  }

  /** A declaration line spliced into a block that already declared something is an assignment. */
  lemma DeclaredInBlock(before: string, classParams: string, newLines: seq<string>, after: string,
                        prefix: string, v: string, value: string, col: int)
    requires LastParamLine(JavaSplit(classParams, '\n')).Some?
    requires FormatParameterLine(prefix, v, value, col) in newLines
    ensures HasAssignment(before + ParamsText(classParams, newLines) + after, "$" + prefix + "_" + v)
  {
    var line := FormatParameterLine(prefix, v, value, col);
    var o := ParamsTextContains(classParams, newLines, line);
    FormatParameterLineAssigns(prefix, v, value, col);
    AssignedInText(before, ParamsText(classParams, newLines), after, line, o, "$" + prefix + "_" + v, 2);
  }

  /** A text holding a line that assigns a variable assigns it, whatever surrounds it. */
  lemma AssignedInText(before: string, text: string, after: string, line: string, o: nat, name: string, i: nat)
    requires o + |line| <= |text| && text[o..o + |line|] == line
    requires AssignsAt(line, name, i)
    ensures HasAssignment(before + text + after, name)
  {
    AssignsAtInfix(text, line, o, name, i);
    AssignsAtPrepend(before, text, name, o + i);
    AssignsAtAppend(before + text, after, name, |before| + o + i);
  }

  /** Every new line appears in the rebuilt block when some line already declared something. */
  lemma ParamsTextContains(classParams: string, newLines: seq<string>, line: string) returns (o: nat)
    requires LastParamLine(JavaSplit(classParams, '\n')).Some?
    requires line in newLines
    ensures o + |line| <= |ParamsText(classParams, newLines)|
    ensures ParamsText(classParams, newLines)[o..o + |line|] == line
  {
    var lines := JavaSplit(classParams, '\n');
    var j :| 0 <= j < |newLines| && newLines[j] == line;
    var at := SplicedAfterHolds(lines, LastParamLine(lines).value, newLines, j);
    o := JoinInfix(Spliced(lines, newLines), "\n", at);
  }

  /** After a declaring line, the splice holds every new line. */
  lemma SplicedAfterHolds(lines: seq<string>, last: nat, newLines: seq<string>, j: nat) returns (at: nat)
    requires last < |lines| && j < |newLines|
    ensures at < |SplicedAfter(lines, Some(last), newLines)|
    ensures SplicedAfter(lines, Some(last), newLines)[at] == newLines[j]
  {
    var spliced := SplicedAfter(lines, Some(last), newLines);
    if last + 1 < |lines| {
      assert spliced == lines[..last + 1] + ["", ""] + newLines + lines[last + 1..];
      at := last + 3 + j;
    } else {
      assert spliced == lines + [""] + newLines + [""];
      at := last + 2 + j;
    }
  }

  // ---------------------------------------------------------------------
  // Rewriting the VALIDATES section
  // ---------------------------------------------------------------------

  /**
   * `addValidations` / `addSubscriptionValidation`: the section body loses
   * its trailing whitespace, then gets a newline, one `  <validation>` line
   * per validation and a blank line; the header, the `# REPOS` marker and
   * everything around them are kept. Without the section nothing changes.
   */
  function WithValidations(content: string, validations: seq<string>): string {
    var found := FindValidates(content);
    if found.None? then content
    else
      var h, k := found.value.1, found.value.2;
      content[..h] + StripTrailing(content[h..k]) + "\n" + Lines(Indented(validations)) + "\n" + content[k..]
  }

  /** Each line with the two-space indent of the section. */
  function Indented(xs: seq<string>): (r: seq<string>)
    ensures |r| == |xs| && forall i :: 0 <= i < |xs| ==> r[i] == "  " + xs[i]
  {
    seq(|xs|, i requires 0 <= i < |xs| => "  " + xs[i])
  }

  lemma IndentedSnoc(xs: seq<string>, i: nat)
    requires i < |xs|
    ensures Indented(xs[..i + 1]) == Indented(xs[..i]) + ["  " + xs[i]]
  {
    var a := Indented(xs[..i + 1]);
    var b := Indented(xs[..i]) + ["  " + xs[i]];
    assert |a| == |b|;
    forall j | 0 <= j < |a|
      ensures a[j] == b[j]
    {
      assert xs[..i + 1][j] == xs[j];
      if j < i {
        assert xs[..i][j] == xs[j];
      }
    }
  }

  /** The StringBuilder loop of `addValidations`: one indented line per validation. */
  method BuildValidationBlock(validations: seq<string>) returns (block: string)
    ensures block == Lines(Indented(validations))
  {
    block := "";
    for i := 0 to |validations|
      invariant block == Lines(Indented(validations[..i]))
    {
      IndentedSnoc(validations, i);
      LinesAppend(Indented(validations[..i]), ["  " + validations[i]]);
      block := block + "  " + validations[i] + "\n";
    }
    assert validations[..|validations|] == validations;
  }

  /** `addValidations(content, validations)` */
  method AddValidations(content: string, validations: seq<string>) returns (r: string)
    ensures r == WithValidations(content, validations)
  {
    var found := FindValidates(content);
    if found.None? {
      return content;
    }
    var h, k := found.value.1, found.value.2;
    var block := BuildValidationBlock(validations);
    r := content[..h] + StripTrailing(content[h..k]) + "\n" + block + "\n" + content[k..];
  }

  /** An assignment is still one in a prefix that reaches past its '='. */
  lemma AssignsAtPrefix(s: string, name: string, i: nat, n: nat)
    requires AssignsAt(s, name, i) && WsEnd(s, i + |name|) < n <= |s|
    ensures AssignsAt(s[..n], name, i)
  {
    var eq := WsEnd(s, i + |name|);
    var t := s[..n];
    StartsAtIff(s, name, i);
    StartsAtIff(t, name, i);
    WsEndSpaces(s, i + |name|);
    assert t[i..i + |name|] == s[i..i + |name|];
    forall x | i + |name| <= x < eq
      ensures IsSpace(t[x])
    {
      assert t[x] == s[x];
    }
    WsEndIs(t, i + |name|, eq);
  }

  /** An assignment is still one in a suffix that starts at or before its name. */
  lemma AssignsAtSuffix(s: string, name: string, i: nat, k: nat)
    requires AssignsAt(s, name, i) && k <= i
    ensures AssignsAt(s[k..], name, i - k)
  {
    var eq := WsEnd(s, i + |name|);
    var t := s[k..];
    StartsAtIff(s, name, i);
    StartsAtIff(t, name, i - k);
    WsEndSpaces(s, i + |name|);
    assert t[i - k..i - k + |name|] == s[i..i + |name|];
    forall x | i - k + |name| <= x < eq - k
      ensures IsSpace(t[x])
    {
      assert t[x] == s[x + k];
    }
    WsEndIs(t, i - k + |name|, eq - k);
  }

  lemma AssignsAtAppend(a: string, b: string, name: string, i: nat)
    requires AssignsAt(a, name, i)
    ensures AssignsAt(a + b, name, i)
  {
    assert (a + b)[..|a|] == a;
    AssignsAtInfix(a + b, a, 0, name, i);
  }

  lemma AssignsAtPrepend(a: string, b: string, name: string, i: nat)
    requires AssignsAt(b, name, i)
    ensures AssignsAt(a + b, name, |a| + i)
  {
    assert (a + b)[|a|..] == b;
    AssignsAtInfix(a + b, b, |a|, name, i);
  }

  /** The stripped section body continues the text before it. */
  lemma StrippedPrefix(content: string, h: nat, k: nat)
    requires h <= k <= |content|
    ensures content[..h] + StripTrailing(content[h..k]) == content[..h + |StripTrailing(content[h..k])|]
  {
    var stripped := StripTrailing(content[h..k]);
    assert stripped == content[h..k][..|stripped|];
    assert content[h..k][..|stripped|] == content[h..h + |stripped|];
    assert content[..h + |stripped|] == content[..h] + content[h..h + |stripped|];
  }

  /** An assignment whose '=' lies before the stripped run is kept in the prefix. */
  lemma KeptBeforeSection(content: string, h: nat, k: nat, mid: string, name: string, i: nat)
    requires h <= k <= |content|
    requires AssignsAt(content, name, i)
    requires WsEnd(content, i + |name|) < h + |StripTrailing(content[h..k])|
    ensures HasAssignment(content[..h] + StripTrailing(content[h..k]) + "\n" + mid + "\n" + content[k..], name)
  {
    var keep := content[..h] + StripTrailing(content[h..k]);
    StrippedPrefix(content, h, k);
    AssignsAtPrefix(content, name, i, |keep|);
    AssignsAtAppend(keep, "\n", name, i);
    AssignsAtAppend(keep + "\n", mid, name, i);
    AssignsAtAppend(keep + "\n" + mid, "\n", name, i);
    AssignsAtAppend(keep + "\n" + mid + "\n", content[k..], name, i);
  }

  /** An assignment that starts at or after the marker is kept in the suffix. */
  lemma KeptAfterSection(content: string, h: nat, k: nat, mid: string, name: string, i: nat)
    requires h <= k <= i
    requires AssignsAt(content, name, i)
    ensures HasAssignment(content[..h] + StripTrailing(content[h..k]) + "\n" + mid + "\n" + content[k..], name)
  {
    var front := content[..h] + StripTrailing(content[h..k]) + "\n" + mid + "\n";
    AssignsAtSuffix(content, name, i, k);
    AssignsAtPrepend(front, content[k..], name, i - k);
  }

  /** What `stripTrailing` removes is whitespace. */
  lemma StrippedRunIsWhitespace(content: string, h: nat, k: nat, x: nat)
    requires h <= k <= |content|
    requires h + |StripTrailing(content[h..k])| <= x < k
    ensures IsJavaWhitespace(content[x])
  {
    StripEndRemoved(content[h..k], IsJavaWhitespace);
    assert content[h..k][x - h] == content[x];
  }

  /** An assignment to a name without '#' holds no '#' up to its '='. */
  lemma AssignmentHasNoHash(content: string, name: string, i: nat, x: nat)
    requires AssignsAt(content, name, i) && '#' !in name
    requires i <= x <= WsEnd(content, i + |name|)
    ensures content[x] != '#'
  {
    if x < i + |name| {
      StartsAtIff(content, name, i);
      assert content[i..i + |name|][x - i] == content[x];
    } else {
      WsEndSpaces(content, i + |name|);
    }
  }

  /**
   * Stripping the whitespace before a '#' and inserting text there keeps
   * every assignment to a name without '#': one whose '=' lies before the
   * stripped run survives in the prefix, any other one starts at or after
   * the '#'.
   */
  lemma StrippedSectionKeepsAssignments(content: string, h: nat, k: nat, mid: string, name: string)
    requires h <= k < |content| && content[k] == '#'
    requires '#' !in name
    requires HasAssignment(content, name)
    ensures HasAssignment(content[..h] + StripTrailing(content[h..k]) + "\n" + mid + "\n" + content[k..], name)
  {
    var i :| 0 <= i <= |content| && AssignsAt(content, name, i);
    var eq := WsEnd(content, i + |name|);
    var stripped := StripTrailing(content[h..k]);
    if eq < h + |stripped| {
      KeptBeforeSection(content, h, k, mid, name, i);
    } else {
      if eq < k {
        StrippedRunIsWhitespace(content, h, k, eq);
      }
      if i < k {
        AssignmentHasNoHash(content, name, i, k);
      }
      KeptAfterSection(content, h, k, mid, name, i);
    }
  }

  /**
   * Rewriting the section keeps every assignment the existence check could
   * see, for names without '#'.
   */
  lemma WithValidationsKeepsAssignments(content: string, validations: seq<string>, name: string)
    requires '#' !in name
    requires HasAssignment(content, name)
    ensures HasAssignment(WithValidations(content, validations), name)
  {
    var found := FindValidates(content);
    if found.Some? {
      StrippedSectionKeepsAssignments(content, found.value.1, found.value.2, Lines(Indented(validations)), name);
    }
  }

  // ---------------------------------------------------------------------
  // updateInitPp
  // ---------------------------------------------------------------------

  /** Adding one missing subscription: its declaration, then its validation. */
  function WithSubscription(content: string, s: Subscription): string {
    var v := ToVariableName(s.subscriptionName);
    WithValidations(WithDeclarations(content, SubscriptionOnly(v, s.subscriptionName)), [ValidationLine("multicast", v)])
  }

  /** The loop over the missing subscriptions, as a left fold. */
  function WithSubscriptions(content: string, missing: seq<Subscription>): string
    decreases |missing|
  {
    if |missing| == 0 then content
    else WithSubscription(WithSubscriptions(content, missing[..|missing| - 1]), missing[|missing| - 1])
  }

  /**
   * `updateInitPp`: blank content is rejected; when the address variable
   * and every subscription variable exist the content is returned as it is;
   * without the address variable everything is added, otherwise only the
   * missing subscriptions, in request order.
   */
  function UpdatedInitPp(content: string, request: ProvisionRequest): (r: Result<string>)
    ensures r.Failure? <==> IsBlank(content)
    ensures (r.Success? && HasAssignment(content, AddressVar(ToVariableName(request.name)))
      && MissingSubscriptions(content, request) == []) ==> r.value == content
  {
    if IsBlank(content) then Failure("Existing init.pp content cannot be empty")
    else
      var variableName := ToVariableName(request.name);
      var missing := MissingSubscriptions(content, request);
      if HasAssignment(content, AddressVar(variableName)) && |missing| == 0 then Success(content)
      else if !HasAssignment(content, AddressVar(variableName)) then
        Success(WithValidations(WithDeclarations(content, AllOf(variableName, request)), ValidationLines(variableName, request)))
      else Success(WithSubscriptions(content, missing))
  }

  /** The loop of `updateInitPp` over the missing subscriptions. */
  method AddMissingSubscriptions(content: string, missing: seq<Subscription>) returns (updatedContent: string)
    ensures updatedContent == WithSubscriptions(content, missing)
  {
    updatedContent := content;
    for i := 0 to |missing|
      invariant updatedContent == WithSubscriptions(content, missing[..i])
    {
      assert missing[..i + 1][..i] == missing[..i];
      var subscriptionVarName := ToVariableName(missing[i].subscriptionName);
      updatedContent := AddDeclarations(updatedContent, SubscriptionOnly(subscriptionVarName, missing[i].subscriptionName));
      updatedContent := AddValidations(updatedContent, [ValidationLine("multicast", subscriptionVarName)]);
    }
    assert missing[..|missing|] == missing;
  }

  /** `updateInitPp(existingContent, request)` */
  method UpdateInitPp(existingContent: string, request: ProvisionRequest) returns (r: Result<string>)
    ensures r == UpdatedInitPp(existingContent, request)
  {
    if IsBlank(existingContent) {
      return Failure("Existing init.pp content cannot be empty");
    }
    var variableName := ToVariableName(request.name);
    var addressExists := HasAssignment(existingContent, AddressVar(variableName));
    var missing := MissingSubscriptions(existingContent, request);
    if addressExists && |missing| == 0 {
      return Success(existingContent);
    }
    var updatedContent := existingContent;
    if !addressExists {
      updatedContent := AddDeclarations(updatedContent, AllOf(variableName, request));
      updatedContent := AddValidations(updatedContent, ValidationLines(variableName, request));
    } else {
      updatedContent := AddMissingSubscriptions(updatedContent, missing);
    }
    return Success(updatedContent);
  }

  /** A queue request without new subscriptions never misses a subscription variable. */
  lemma QueueMissesNothing(content: string, request: ProvisionRequest)
    requires request.resourceType == "queue" && !HasNewSubscriptions(request)
    ensures MissingSubscriptions(content, request) == []
  {
  }

  /** Text that assigns a `$` variable is not blank. */
  lemma AssignedIsNotBlank(s: string, name: string)
    requires |name| > 0 && name[0] == '$' && HasAssignment(s, name)
    ensures !IsBlank(s)
  {
    var i :| 0 <= i <= |s| && AssignsAt(s, name, i);
    assert s[i] == name[0];
    BlankIff(s);
  }

  /** The address variable of a valid name holds no '#'. */
  lemma AddressVarHasNoHash(name: string)
    requires ValidName(name)
    ensures '#' !in AddressVar(ToVariableName(name))
  {
    var v := ToVariableName(name);
    ValidNameVariable(name);
    assert forall j :: 0 <= j < |v| ==> v[j] != '#';
    assert AddressVar(v) == "$address_" + v;
  }

  lemma AddressVarIs(v: string)
    ensures "$" + "address" + "_" + v == AddressVar(v)
  {
    assert "$" + "address" + "_" == "$address_";
  }

  /** Once a queue request is applied, its address variable is assigned. */
  lemma UpdatedInitPpDeclaresAddress(content: string, request: ProvisionRequest)
    requires !IsBlank(content)
    requires request.resourceType == "queue" && !HasNewSubscriptions(request)
    requires ValidName(request.name)
    requires FindClassParams(content).Some?
    requires var (_, g, k, _) := FindClassParams(content).value;
      LastParamLine(JavaSplit(content[g..k], '\n')).Some?
    ensures UpdatedInitPp(content, request).Success?
    ensures HasAssignment(UpdatedInitPp(content, request).value, AddressVar(ToVariableName(request.name)))
  {
    var variableName := ToVariableName(request.name);
    var name := AddressVar(variableName);
    QueueMissesNothing(content, request);
    if !HasAssignment(content, name) {
      var found := FindClassParams(content).value;
      var col := AlignmentColumn(content[found.1..found.2]);
      var d := AllOf(variableName, request);
      AddressLineFirst(variableName, request, col);
      assert DeclarationLines(d, col) == ParameterLines(variableName, request, col);
      WithDeclarationsAssigns(content, d, "address", variableName, request.name, col);
      AddressVarIs(variableName);
      AddressVarHasNoHash(request.name);
      WithValidationsKeepsAssignments(WithDeclarations(content, d), ValidationLines(variableName, request), name);
    }
  }

  /**
   * A second update with the same queue request changes nothing: the first
   * one declared `$address_<var>`, the validations kept that declaration,
   * and a queue without new subscriptions misses none. This needs the class
   * block to exist and to declare something already, and a valid name.
   */
  lemma UpdateInitPpSettlesForQueue(content: string, request: ProvisionRequest)
    requires !IsBlank(content)
    requires request.resourceType == "queue" && !HasNewSubscriptions(request)
    requires ValidName(request.name)
    requires FindClassParams(content).Some?
    requires var (_, g, k, _) := FindClassParams(content).value;
      LastParamLine(JavaSplit(content[g..k], '\n')).Some?
    ensures UpdatedInitPp(content, request).Success?
    ensures UpdatedInitPp(UpdatedInitPp(content, request).value, request) == UpdatedInitPp(content, request)
  {
    UpdatedInitPpDeclaresAddress(content, request);
    var r1 := UpdatedInitPp(content, request).value;
    var name := AddressVar(ToVariableName(request.name));
    AssignedIsNotBlank(r1, name);
    QueueMissesNothing(r1, request);
  }

  // ---------------------------------------------------------------------
  // Adding subscriptions to an existing address
  // ---------------------------------------------------------------------

  /** The missing subscriptions keep the request's order: the selection distributes over concatenation. */
  lemma {:induction false} UnassignedAppend(content: string, a: seq<Subscription>, b: seq<Subscription>)
    ensures Unassigned(content, a + b) == Unassigned(content, a) + Unassigned(content, b)
  {
    if |a| > 0 {
      assert (a + b)[0] == a[0] && (a + b)[1..] == a[1..] + b;
      UnassignedAppend(content, a[1..], b);
    } else {
      assert a + b == b;
    }
  }

  /** Every line of the old parameter block is still a line of the spliced block. */
  lemma SplicedAfterKeeps(lines: seq<string>, last: Option<nat>, newLines: seq<string>, j: nat) returns (at: nat)
    requires last.Some? ==> last.value < |lines|
    requires j < |lines|
    ensures at < |SplicedAfter(lines, last, newLines)| && SplicedAfter(lines, last, newLines)[at] == lines[j]
  {
    var spliced := SplicedAfter(lines, last, newLines);
    if last.None? {
      at := j;
    } else if last.value + 1 < |lines| {
      var l := last.value;
      assert spliced == lines[..l + 1] + ["", ""] + newLines + lines[l + 1..];
      if j <= l {
        at := j;
      } else {
        at := j + 2 + |newLines|;
        assert spliced[at] == lines[l + 1..][j - l - 1];
      }
    } else {
      assert spliced == lines + [""] + newLines + [""];
      at := j;
    }
  }

  /** Every line of the old parameter block occurs in the rewritten block text. */
  lemma ParamsTextKeepsLine(classParams: string, newLines: seq<string>, j: nat) returns (o: nat)
    requires j < |JavaSplit(classParams, '\n')|
    ensures var line := JavaSplit(classParams, '\n')[j];
      o + |line| <= |ParamsText(classParams, newLines)| && ParamsText(classParams, newLines)[o..o + |line|] == line
  {
    var lines := JavaSplit(classParams, '\n');
    var at := SplicedAfterKeeps(lines, LastParamLine(lines), newLines, j);
    o := JoinInfix(Spliced(lines, newLines), "\n", at);
  }

  /**
   * A variable assigned on a line of the class parameter block is still
   * assigned once the block has been rewritten, whatever is declared.
   */
  lemma WithDeclarationsKeepsLine(content: string, d: Declarations, name: string, j: nat)
    requires FindClassParams(content).Some?
    requires var found := FindClassParams(content).value;
      j < |JavaSplit(content[found.1..found.2], '\n')| && HasAssignment(JavaSplit(content[found.1..found.2], '\n')[j], name)
    ensures HasAssignment(WithDeclarations(content, d), name)
  {
    var found := FindClassParams(content).value;
    var classParams := content[found.1..found.2];
    var newLines := DeclarationLines(d, AlignmentColumn(classParams));
    var before, after := content[..found.0] + ClassHeader, ") {" + content[found.3..];
    assert WithDeclarations(content, d) == before + ParamsText(classParams, newLines) + after;
    BlockKeepsLine(before, classParams, newLines, after, name, j);
  }

  /** An assignment on a line of the block is one in any text around the rewritten block. */
  lemma BlockKeepsLine(before: string, classParams: string, newLines: seq<string>, after: string, name: string, j: nat)
    requires j < |JavaSplit(classParams, '\n')| && HasAssignment(JavaSplit(classParams, '\n')[j], name)
    ensures HasAssignment(before + ParamsText(classParams, newLines) + after, name)
  {
    var line := JavaSplit(classParams, '\n')[j];
    var o := ParamsTextKeepsLine(classParams, newLines, j);
    var i :| 0 <= i <= |line| && AssignsAt(line, name, i);
    AssignedInText(before, ParamsText(classParams, newLines), after, line, o, name, i);
  }

  /** The variable is assigned on a line of the class parameter block. */
  predicate BlockLineAssigns(content: string, name: string) {
    FindClassParams(content).Some?
    && var (_, g, k, _) := FindClassParams(content).value;
      exists j :: 0 <= j < |JavaSplit(content[g..k], '\n')| && HasAssignment(JavaSplit(content[g..k], '\n')[j], name)
  }

  /** A block-line assignment of a name without '#' survives adding one subscription. */
  lemma WithSubscriptionKeeps(content: string, s: Subscription, name: string)
    requires BlockLineAssigns(content, name) && '#' !in name
    ensures HasAssignment(WithSubscription(content, s), name)
  {
    var v := ToVariableName(s.subscriptionName);
    var found := FindClassParams(content).value;
    var lines := JavaSplit(content[found.1..found.2], '\n');
    var j :| 0 <= j < |lines| && HasAssignment(lines[j], name);
    WithDeclarationsKeepsLine(content, SubscriptionOnly(v, s.subscriptionName), name, j);
    WithValidationsKeepsAssignments(WithDeclarations(content, SubscriptionOnly(v, s.subscriptionName)), [ValidationLine("multicast", v)], name);
  }

  lemma MulticastVarIs(v: string)
    ensures "$" + "multicast" + "_" + v == MulticastVar(v)
  {
    assert "$" + "multicast" + "_" == "$multicast_";
  }

  /** The multicast variable of a valid name holds no '#'. */
  lemma MulticastVarHasNoHash(name: string)
    requires ValidName(name)
    ensures '#' !in MulticastVar(ToVariableName(name))
  {
    var v := ToVariableName(name);
    ValidNameVariable(name);
    assert forall j :: 0 <= j < |v| ==> v[j] != '#';
    assert MulticastVar(v) == "$multicast_" + v;
  }

  /**
   * `addSubscriptionParameter` then `addSubscriptionValidation`: the
   * subscription's variable is declared, when the class block already
   * declares something and the name is valid.
   */
  lemma WithSubscriptionDeclares(content: string, s: Subscription)
    requires ValidName(s.subscriptionName)
    requires FindClassParams(content).Some?
    requires var (_, g, k, _) := FindClassParams(content).value;
      LastParamLine(JavaSplit(content[g..k], '\n')).Some?
    ensures HasAssignment(WithSubscription(content, s), MulticastVar(ToVariableName(s.subscriptionName)))
  {
    var v := ToVariableName(s.subscriptionName);
    var found := FindClassParams(content).value;
    var col := AlignmentColumn(content[found.1..found.2]);
    var d := SubscriptionOnly(v, s.subscriptionName);
    assert DeclarationLines(d, col) == [FormatParameterLine("multicast", v, s.subscriptionName, col)];
    WithDeclarationsAssigns(content, d, "multicast", v, s.subscriptionName, col);
    MulticastVarIs(v);
    MulticastVarHasNoHash(s.subscriptionName);
    WithValidationsKeepsAssignments(WithDeclarations(content, d), [ValidationLine("multicast", v)], MulticastVar(v));
  }

  /** The names of the subscriptions a topic request may add, all valid. */
  predicate ValidSubscriptionNames(request: ProvisionRequest) {
    (forall x :: x in NewSubscriptions(request) ==> ValidName(x.subscriptionName))
    && (HasLegacySubscription(request) ==> ValidName(request.legacySubscriptionName.value))
  }

  /**
   * Every variable the existence checks look for is, where the content
   * assigns it, assigned on a line of the class block.
   */
  predicate AssignedInBlock(content: string, request: ProvisionRequest) {
    var address := AddressVar(ToVariableName(request.name));
    (HasAssignment(content, address) ==> BlockLineAssigns(content, address))
    && forall x :: x in NewSubscriptions(request) ==> SubscriptionInBlock(content, x)
  }

  /** Where the subscription's variable is assigned, it is assigned on a line of the class block. */
  predicate SubscriptionInBlock(content: string, x: Subscription) {
    var name := MulticastVar(ToVariableName(x.subscriptionName));
    HasAssignment(content, name) ==> BlockLineAssigns(content, name)
  }

  /**
   * A topic whose address is declared and which misses exactly one
   * subscription variable: the update adds that one, and a second update
   * with the same request changes nothing.
   */
  lemma UpdateInitPpSettlesForTopic(content: string, request: ProvisionRequest, s: Subscription)
    requires !IsBlank(content)
    requires request.resourceType == "topic" && ValidName(request.name) && ValidSubscriptionNames(request)
    requires HasAssignment(content, AddressVar(ToVariableName(request.name))) && AssignedInBlock(content, request)
    requires MissingSubscriptions(content, request) == [s]
    requires FindClassParams(content).Some?
    requires var found := FindClassParams(content).value;
      LastParamLine(JavaSplit(content[found.1..found.2], '\n')).Some?
    ensures UpdatedInitPp(content, request) == Success(WithSubscription(content, s))
    ensures UpdatedInitPp(WithSubscription(content, s), request) == Success(WithSubscription(content, s))
  {
    assert UpdatedInitPp(content, request) == Success(WithSubscription(content, s)) by {
      assert WithSubscriptions(content, [s]) == WithSubscription(content, s);
    }
    var r1 := WithSubscription(content, s);
    var address := AddressVar(ToVariableName(request.name));
    assert s in MissingSubscriptions(content, request);
    assert ValidName(s.subscriptionName) by {
      if !HasNewSubscriptions(request) {
        assert s.subscriptionName == request.legacySubscriptionName.value;
      }
    }
    WithSubscriptionDeclares(content, s);
    AddressVarHasNoHash(request.name);
    WithSubscriptionKeeps(content, s, address);
    if HasNewSubscriptions(request) {
      forall x | x in NewSubscriptions(request)
        ensures HasAssignment(r1, MulticastVar(ToVariableName(x.subscriptionName)))
      {
        StillAssignedAfterOne(content, request, s, x);
      }
    }
    NothingMissingSettles(r1, request);
  }

  /** A new subscription's variable is assigned after adding the one that was missing. */
  lemma StillAssignedAfterOne(content: string, request: ProvisionRequest, s: Subscription, x: Subscription)
    requires ValidSubscriptionNames(request) && AssignedInBlock(content, request)
    requires MissingSubscriptions(content, request) == [s] && HasNewSubscriptions(request)
    requires HasAssignment(WithSubscription(content, s), MulticastVar(ToVariableName(s.subscriptionName)))
    requires x in NewSubscriptions(request)
    ensures HasAssignment(WithSubscription(content, s), MulticastVar(ToVariableName(x.subscriptionName)))
  {
    var name := MulticastVar(ToVariableName(x.subscriptionName));
    if HasAssignment(content, name) {
      assert SubscriptionInBlock(content, x);
      MulticastVarHasNoHash(x.subscriptionName);
      WithSubscriptionKeeps(content, s, name);
    } else {
      assert x in MissingSubscriptions(content, request);
    }
  }

  /**
   * Content that assigns the address variable and every variable the
   * request checks for is returned as it is.
   */
  lemma NothingMissingSettles(content: string, request: ProvisionRequest)
    requires HasAssignment(content, AddressVar(ToVariableName(request.name)))
    requires HasNewSubscriptions(request) ==>
      forall x :: x in NewSubscriptions(request) ==> HasAssignment(content, MulticastVar(ToVariableName(x.subscriptionName)))
    requires !HasNewSubscriptions(request) && HasLegacySubscription(request) ==>
      HasAssignment(content, MulticastVar(ToVariableName(request.legacySubscriptionName.value)))
    ensures UpdatedInitPp(content, request) == Success(content)
  {
    AssignedIsNotBlank(content, AddressVar(ToVariableName(request.name)));
  }
}
