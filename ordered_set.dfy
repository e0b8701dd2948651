/**
 * Insertion-ordered sets (`LinkedHashSet`) as duplicate-free sequences:
 * `add` appends an element only when it is absent, so `addAll` keeps the
 * existing elements first, in their order, and appends the new ones in
 * first-seen order.
 */
module OrderedSet {

  predicate Distinct<T(==,!new)>(xs: seq<T>) {
    forall i, j :: 0 <= i < j < |xs| ==> xs[i] != xs[j]
  }

  /** `LinkedHashSet.add`. */
  function Add<T(==,!new)>(acc: seq<T>, x: T): (r: seq<T>)
    ensures x in r
  {
    if x in acc then acc else acc + [x]
  }

  /** `acc.addAll(xs)`, one element at a time from the front of `xs`. */
  function AddAll<T(==,!new)>(acc: seq<T>, xs: seq<T>): (r: seq<T>)
    decreases |xs|
    ensures acc <= r
    ensures forall x :: x in r <==> x in acc || x in xs
    ensures Distinct(acc) ==> Distinct(r)
    ensures forall i :: |acc| <= i < |r| ==> r[i] !in acc
    ensures |r| <= |acc| + |xs|
  {
    if |xs| == 0 then acc
    else
      var prev := AddAll(acc, xs[..|xs| - 1]);
      assert forall x :: x in xs <==> x in xs[..|xs| - 1] || x == xs[|xs| - 1];
      Add(prev, xs[|xs| - 1])
  }

  /** `for (x : xs) acc.add(x)`. */
  method AddEach<T(==,!new)>(acc: seq<T>, xs: seq<T>) returns (r: seq<T>)
    ensures r == AddAll(acc, xs)
  {
    r := acc;
    var j := 0;
    while j < |xs|
      invariant j <= |xs|
      invariant r == AddAll(acc, xs[..j])
    {
      assert xs[..j + 1][..j] == xs[..j];
      r := Add(r, xs[j]);
      j := j + 1;
    }
    assert xs[..|xs|] == xs;
  }

  /** Adding elements that are all present already changes nothing. */
  lemma {:induction false} AddAllPresent<T(!new)>(acc: seq<T>, xs: seq<T>)
    requires forall x :: x in xs ==> x in acc
    ensures AddAll(acc, xs) == acc
  {
    if |xs| > 0 {
      AddAllPresent(acc, xs[..|xs| - 1]);
    }
  }

  /** Adding two batches is adding their concatenation. */
  lemma {:induction false} AddAllConcat<T(!new)>(acc: seq<T>, a: seq<T>, b: seq<T>)
    decreases |b|
    ensures AddAll(AddAll(acc, a), b) == AddAll(acc, a + b)
  {
    if |b| == 0 {
      assert a + b == a;
    } else {
      AddAllConcat(acc, a, b[..|b| - 1]);
      assert (a + b)[..|a + b| - 1] == a + b[..|b| - 1];
    }
  }

  /** Adding the same batch twice is adding it once. */
  lemma AddAllIdempotent<T(!new)>(acc: seq<T>, xs: seq<T>)
    ensures AddAll(AddAll(acc, xs), xs) == AddAll(acc, xs)
  {
    AddAllPresent(AddAll(acc, xs), xs);
  }

  /** The elements of `xs` without repetitions, in first-seen order (`new LinkedHashSet<>(xs)`). */
  function Dedup<T(==,!new)>(xs: seq<T>): (r: seq<T>)
    ensures Distinct(r)
    ensures forall x :: x in r <==> x in xs
    ensures |r| <= |xs|
  {
    AddAll([], xs)
  }

  /** A list without repetitions is its own deduplication. */
  lemma {:induction false} DedupDistinct<T(!new)>(xs: seq<T>)
    requires Distinct(xs)
    ensures Dedup(xs) == xs
  {
    if |xs| > 0 {
      var init := xs[..|xs| - 1];
      assert Distinct(init);
      DedupDistinct(init);
      assert xs[|xs| - 1] !in init;
      assert init + [xs[|xs| - 1]] == xs;
    }
  }
}
