/** Helpers shared by every listing page of the portal: JavaScript's
    `String.prototype.includes`, the case-insensitive search over a fixed set
    of fields, the `"all"` sentinel of the select filters, and `Array.filter`,
    `filter(...).length` and `reduce` sums over a record list.
    Every list function recurses on the last element, the way a left-to-right
    loop grows its result. */
module Listing {

  /** The `toLowerCase` of the pages, left abstract: any function on strings. */
  type Fold = string -> string

  /** The one property of `toLowerCase` the filters rely on. */
  predicate FoldsEmpty(fold: Fold) {
    fold("") == ""
  }

  // ---------------------------------------------------------------------------
  // Substrings

  /** `needle` occurs in `hay` starting at index `i`. */
  predicate OccursAt(hay: string, needle: string, i: int) {
    0 <= i && i + |needle| <= |hay| && hay[i..i + |needle|] == needle
  }

  /** `hay.includes(needle)`. */
  predicate Includes(hay: string, needle: string)
    decreases |hay|
  {
    (|needle| <= |hay| && hay[..|needle|] == needle)
    || (|hay| > 0 && Includes(hay[1..], needle))
  }

  /** `Includes` holds exactly when the needle occurs at some index. */
  lemma {:induction false} IncludesAt(hay: string, needle: string, i: int)
    requires OccursAt(hay, needle, i)
    ensures Includes(hay, needle)
    decreases i
  {
    if i > 0 {
      assert OccursAt(hay[1..], needle, i - 1) by {
        assert hay[1..][i - 1..i - 1 + |needle|] == hay[i..i + |needle|];
      }
      IncludesAt(hay[1..], needle, i - 1);
    }
  }

  lemma {:induction false} IncludesWitness(hay: string, needle: string) returns (i: int)
    requires Includes(hay, needle)
    ensures OccursAt(hay, needle, i)
    decreases |hay|
  {
    if |needle| <= |hay| && hay[..|needle|] == needle {
      i := 0;
    } else {
      var j := IncludesWitness(hay[1..], needle);
      assert hay[1..][j..j + |needle|] == hay[j + 1..j + 1 + |needle|];
      i := j + 1;
    }
  }

  /** The empty string is included in every string; nothing longer than the
      haystack is included in it. */
  lemma EmptyIsIncluded(hay: string)
    ensures Includes(hay, "")
  {
    assert hay[..0] == "";
  }

  lemma {:induction false} IncludedIsShorter(hay: string, needle: string)
    requires Includes(hay, needle)
    ensures |needle| <= |hay|
  {
    var i := IncludesWitness(hay, needle);
  }

  /** `fields.some(s => s.includes(needle))`. */
  predicate SomeIncludes(fields: seq<string>, needle: string)
  {
    if |fields| == 0 then false
    else SomeIncludes(fields[..|fields| - 1], needle) || Includes(fields[|fields| - 1], needle)
  }

  lemma {:induction false} SomeIncludesIff(fields: seq<string>, needle: string)
    ensures SomeIncludes(fields, needle) <==> exists k :: 0 <= k < |fields| && Includes(fields[k], needle)
  {
    if |fields| > 0 {
      var init := fields[..|fields| - 1];
      SomeIncludesIff(init, needle);
      assert forall k :: 0 <= k < |init| ==> init[k] == fields[k];
    }
  }

  /** Every field passed through the case fold. */
  function Folded(fold: Fold, fields: seq<string>): (r: seq<string>)
    ensures |r| == |fields|
    ensures forall k :: 0 <= k < |fields| ==> r[k] == fold(fields[k])
  {
    seq(|fields|, k requires 0 <= k < |fields| => fold(fields[k]))
  }

  /** The search half of every page filter:
      `f1.toLowerCase().includes(term.toLowerCase()) || f2... || ...`. */
  predicate SearchMatches(fold: Fold, fields: seq<string>, term: string)
  {
    SomeIncludes(Folded(fold, fields), fold(term))
  }

  /** A record passes the search exactly when one of its searched fields,
      case-folded, contains the case-folded term. */
  lemma SearchMatchesIff(fold: Fold, fields: seq<string>, term: string)
    ensures SearchMatches(fold, fields, term)
        <==> exists k :: 0 <= k < |fields| && Includes(fold(fields[k]), fold(term))
  {
    SomeIncludesIff(Folded(fold, fields), fold(term));
  }

  /** The two-field search: `a` or `b` contains the term, both case-folded. */
  lemma SearchTwoIff(fold: Fold, a: string, b: string, term: string)
    ensures SearchMatches(fold, [a, b], term)
        <==> Includes(fold(a), fold(term)) || Includes(fold(b), fold(term))
  {
    SearchMatchesIff(fold, [a, b], term);
    assert [a, b][0] == a && [a, b][1] == b;
  }

  /** The three-field search: `a`, `b` or `c` contains the term, case-folded. */
  lemma SearchThreeIff(fold: Fold, a: string, b: string, c: string, term: string)
    ensures SearchMatches(fold, [a, b, c], term)
        <==> Includes(fold(a), fold(term)) || Includes(fold(b), fold(term)) || Includes(fold(c), fold(term))
  {
    SearchMatchesIff(fold, [a, b, c], term);
    assert [a, b, c][0] == a && [a, b, c][1] == b && [a, b, c][2] == c;
  }

  /** An empty search term matches any record that has a searched field. */
  lemma EmptySearchMatches(fold: Fold, fields: seq<string>)
    requires FoldsEmpty(fold) && |fields| > 0
    ensures SearchMatches(fold, fields, "")
  {
    EmptyIsIncluded(fold(fields[0]));
    SearchMatchesIff(fold, fields, "");
  }

  /** An equality filter of a select: the sentinel `"all"` lets everything pass. */
  predicate Passes(filter: string, value: string) {
    filter == "all" || value == filter
  }

  // ---------------------------------------------------------------------------
  // Subsequences, filter, count and sum

  /** No element occurs twice. */
  predicate NoDuplicates<T(==)>(s: seq<T>) {
    forall i, j :: 0 <= i < j < |s| ==> s[i] != s[j]
  }

  /** `Array.from(new Set(xs))`: each distinct element once, in the order of
      its first occurrence (`DedupeKeepsFirstOccurrenceOrder`). */
  function Dedupe<T(==,!new)>(xs: seq<T>): (r: seq<T>)
    ensures NoDuplicates(r)
    ensures forall x :: x in r <==> x in xs
  {
    if |xs| == 0 then []
    else
      var init, x := xs[..|xs| - 1], xs[|xs| - 1];
      var r0 := Dedupe(init);
      assert xs == init + [x];
      if x in r0 then r0 else r0 + [x]
  }

  /** The index of the first occurrence of `x` in `xs`. */
  function FirstIndex<T(==)>(xs: seq<T>, x: T): (i: nat)
    requires x in xs
    ensures i < |xs| && xs[i] == x
    ensures forall k :: 0 <= k < i ==> xs[k] != x
  {
    if xs[0] == x then 0 else 1 + FirstIndex(xs[1..], x)
  }

  /** Appending an element moves no first occurrence, and gives a new
      element its first occurrence at the end. */
  lemma {:induction false} FirstIndexSnoc<T>(s: seq<T>, x: T, y: T)
    requires y in s + [x]
    ensures y in s ==> FirstIndex(s + [x], y) == FirstIndex(s, y)
    ensures y !in s ==> FirstIndex(s + [x], y) == |s|
  {
    if |s| > 0 && s[0] != y {
      assert (s + [x])[1..] == s[1..] + [x];
      FirstIndexSnoc(s[1..], x, y);
    }
  }

  /** `Dedupe` lists the distinct elements in the order of their first
      occurrences. */
  lemma {:induction false} DedupeKeepsFirstOccurrenceOrder<T(!new)>(xs: seq<T>)
    ensures forall i, j :: 0 <= i < j < |Dedupe(xs)| ==>
              FirstIndex(xs, Dedupe(xs)[i]) < FirstIndex(xs, Dedupe(xs)[j])
  {
    if |xs| > 0 {
      var init, x := xs[..|xs| - 1], xs[|xs| - 1];
      DedupeKeepsFirstOccurrenceOrder(init);
      assert xs == init + [x];
      var r0 := Dedupe(init);
      assert forall i, j :: 0 <= i < j < |r0| ==> FirstIndex(init, r0[i]) < FirstIndex(init, r0[j]);
      forall y | y in init
        ensures FirstIndex(xs, y) == FirstIndex(init, y) < |init|
      {
        FirstIndexSnoc(init, x, y);
      }
      if x !in r0 {
        FirstIndexSnoc(init, x, x);
        var r := r0 + [x];
        forall i, j | 0 <= i < j < |r|
          ensures FirstIndex(xs, r[i]) < FirstIndex(xs, r[j])
        {
          assert r[i] == r0[i] && r0[i] in r0;
          if j < |r0| {
            assert r[j] == r0[j] && r0[j] in r0;
            assert FirstIndex(init, r0[i]) < FirstIndex(init, r0[j]);
          }
        }
      } else {
        forall i, j | 0 <= i < j < |r0|
          ensures FirstIndex(xs, r0[i]) < FirstIndex(xs, r0[j])
        {
          assert r0[i] in r0 && r0[j] in r0;
          assert FirstIndex(init, r0[i]) < FirstIndex(init, r0[j]);
        }
      }
    }
  }

  /** `a` is `b` with some elements dropped and the rest kept in order. */
  predicate IsSubsequence<T(==)>(a: seq<T>, b: seq<T>)
    decreases |b|
  {
    if |a| == 0 then true
    else if |b| == 0 then false
    else if a[|a| - 1] == b[|b| - 1] then IsSubsequence(a[..|a| - 1], b[..|b| - 1])
    else IsSubsequence(a, b[..|b| - 1])
  }

  /** `xs.filter(keep)`: the elements that satisfy `keep`, in their order. */
  function Filter<T(==)>(keep: T -> bool, xs: seq<T>): (r: seq<T>)
    ensures |r| <= |xs|
    ensures forall k :: 0 <= k < |r| ==> keep(r[k])
    ensures forall x :: x in r ==> x in xs
    ensures forall x :: x in xs && keep(x) ==> x in r
    ensures IsSubsequence(r, xs)
  {
    if |xs| == 0 then []
    else
      var init, x := xs[..|xs| - 1], xs[|xs| - 1];
      var r0 := Filter(keep, init);
      assert xs == init + [x];
      if keep(x) then
        assert (r0 + [x])[..|r0|] == r0;
        r0 + [x]
      else
        assert |r0| > 0 ==> r0[|r0| - 1] != x;
        r0
  }

  /** `filter` keeps every passing element as many times as it occurs, and
      drops every other one. */
  lemma {:induction false} FilterCounts<T>(keep: T -> bool, xs: seq<T>)
    ensures forall y :: multiset(Filter(keep, xs))[y] == if keep(y) then multiset(xs)[y] else 0
  {
    if |xs| == 0 {
      forall y
        ensures multiset(Filter(keep, xs))[y] == if keep(y) then multiset(xs)[y] else 0
      {
        assert multiset(xs)[y] == 0;
      }
    } else {
      var init, x := xs[..|xs| - 1], xs[|xs| - 1];
      FilterCounts(keep, init);
      assert xs == init + [x];
      assert multiset(xs) == multiset(init) + multiset{x};
      forall y
        ensures multiset(Filter(keep, xs))[y] == if keep(y) then multiset(xs)[y] else 0
      {
        if y !in init {
          assert multiset(init)[y] == 0;
          assert y !in Filter(keep, init);
        }
      }
    }
  }

  /** Filtering with a predicate every element satisfies changes nothing. */
  lemma {:induction false} FilterKeepsAll<T>(keep: T -> bool, xs: seq<T>)
    requires forall k :: 0 <= k < |xs| ==> keep(xs[k])
    ensures Filter(keep, xs) == xs
  {
    if |xs| > 0 {
      FilterKeepsAll(keep, xs[..|xs| - 1]);
      assert xs == xs[..|xs| - 1] + [xs[|xs| - 1]];
    }
  }

  /** Filters with predicates that agree everywhere give the same list. */
  lemma {:induction false} FilterEquivalent<T>(p: T -> bool, q: T -> bool, xs: seq<T>)
    requires forall x :: p(x) == q(x)
    ensures Filter(p, xs) == Filter(q, xs)
  {
    if |xs| > 0 {
      FilterEquivalent(p, q, xs[..|xs| - 1]);
    }
  }

  /** `xs.filter(p).length`. */
  function Count<T(==)>(p: T -> bool, xs: seq<T>): (n: nat)
    ensures n <= |xs|
  {
    |Filter(p, xs)|
  }

  lemma CountSnoc<T>(p: T -> bool, xs: seq<T>, x: T)
    ensures Count(p, xs + [x]) == Count(p, xs) + (if p(x) then 1 else 0)
  {
    assert (xs + [x])[..|xs|] == xs;
  }

  /** Two predicates that split every element between them split the count. */
  lemma {:induction false} CountPartition<T>(p: T -> bool, q: T -> bool, xs: seq<T>)
    requires forall x :: q(x) == !p(x)
    ensures Count(p, xs) + Count(q, xs) == |xs|
  {
    if |xs| > 0 {
      var init := xs[..|xs| - 1];
      CountPartition(p, q, init);
      assert xs == init + [xs[|xs| - 1]];
      CountSnoc(p, init, xs[|xs| - 1]);
      CountSnoc(q, init, xs[|xs| - 1]);
    }
  }

  /** Counts of three mutually exclusive predicates add up to at most the length. */
  lemma {:induction false} CountDisjoint3<T>(p: T -> bool, q: T -> bool, r: T -> bool, xs: seq<T>)
    requires forall x :: !(p(x) && q(x)) && !(p(x) && r(x)) && !(q(x) && r(x))
    ensures Count(p, xs) + Count(q, xs) + Count(r, xs) <= |xs|
  {
    if |xs| > 0 {
      var init := xs[..|xs| - 1];
      var x := xs[|xs| - 1];
      CountDisjoint3(p, q, r, init);
      assert xs == init + [x];
      CountSnoc(p, init, x);
      CountSnoc(q, init, x);
      CountSnoc(r, init, x);
    }
  }

  /** Counts of three mutually exclusive predicates add up to the count of
      their union. */
  lemma {:induction false} CountUnion3<T>(p: T -> bool, q: T -> bool, r: T -> bool, any: T -> bool, xs: seq<T>)
    requires forall x :: !(p(x) && q(x)) && !(p(x) && r(x)) && !(q(x) && r(x))
    requires forall x :: any(x) == (p(x) || q(x) || r(x))
    ensures Count(p, xs) + Count(q, xs) + Count(r, xs) == Count(any, xs)
  {
    if |xs| > 0 {
      var init := xs[..|xs| - 1];
      var x := xs[|xs| - 1];
      CountUnion3(p, q, r, any, init);
      assert xs == init + [x];
      CountSnoc(p, init, x);
      CountSnoc(q, init, x);
      CountSnoc(r, init, x);
      CountSnoc(any, init, x);
    }
  }

  /** One element that fails the predicate keeps the count below the length. */
  lemma {:induction false} CountMissed<T>(p: T -> bool, xs: seq<T>, k: int)
    requires 0 <= k < |xs| && !p(xs[k])
    ensures Count(p, xs) < |xs|
  {
    var init, x := xs[..|xs| - 1], xs[|xs| - 1];
    assert xs == init + [x];
    CountSnoc(p, init, x);
    if k < |xs| - 1 {
      assert init[k] == xs[k];
      CountMissed(p, init, k);
    }
  }

  /** `xs.reduce((sum, x) => sum + f(x), 0)`. */
  function SumBy<T>(f: T -> int, xs: seq<T>): int
  {
    if |xs| == 0 then 0 else SumBy(f, xs[..|xs| - 1]) + f(xs[|xs| - 1])
  }

  lemma SumSnoc<T>(f: T -> int, xs: seq<T>, x: T)
    ensures SumBy(f, xs + [x]) == SumBy(f, xs) + f(x)
  {
    assert (xs + [x])[..|xs|] == xs;
  }

  /** A sum of non-negative terms is non-negative. */
  lemma {:induction false} SumNonNegative<T>(f: T -> int, xs: seq<T>)
    requires forall k :: 0 <= k < |xs| ==> f(xs[k]) >= 0
    ensures SumBy(f, xs) >= 0
  {
    if |xs| > 0 {
      SumNonNegative(f, xs[..|xs| - 1]);
    }
  }

  /** The sum over a filtered list, as a sum of the terms that pass. */
  function SumWhere<T(==)>(p: T -> bool, f: T -> int, xs: seq<T>): int
  {
    SumBy(f, Filter(p, xs))
  }

  lemma SumWhereSnoc<T>(p: T -> bool, f: T -> int, xs: seq<T>, x: T)
    ensures SumWhere(p, f, xs + [x]) == SumWhere(p, f, xs) + (if p(x) then f(x) else 0)
  {
    assert (xs + [x])[..|xs|] == xs;
    if p(x) {
      SumSnoc(f, Filter(p, xs), x);
    }
  }

  /** Summing over two disjoint filters is summing over their union. */
  lemma {:induction false} SumWhereDisjoint<T>(p: T -> bool, q: T -> bool, pq: T -> bool, f: T -> int, xs: seq<T>)
    requires forall x :: !(p(x) && q(x)) && (pq(x) == (p(x) || q(x)))
    ensures SumWhere(p, f, xs) + SumWhere(q, f, xs) == SumWhere(pq, f, xs)
  {
    if |xs| > 0 {
      var init, x := xs[..|xs| - 1], xs[|xs| - 1];
      SumWhereDisjoint(p, q, pq, f, init);
      assert xs == init + [x];
      SumWhereSnoc(p, f, init, x);
      SumWhereSnoc(q, f, init, x);
      SumWhereSnoc(pq, f, init, x);
    }
  }

  /** Over non-negative terms, a filtered sum is at most the whole sum. */
  lemma {:induction false} SumWhereAtMostSum<T>(p: T -> bool, f: T -> int, xs: seq<T>)
    requires forall k :: 0 <= k < |xs| ==> f(xs[k]) >= 0
    ensures 0 <= SumWhere(p, f, xs) <= SumBy(f, xs)
  {
    if |xs| > 0 {
      var init, x := xs[..|xs| - 1], xs[|xs| - 1];
      SumWhereAtMostSum(p, f, init);
      assert xs == init + [x];
      SumWhereSnoc(p, f, init, x);
      SumSnoc(f, init, x);
    }
  }

  /** A filter whose every pass is the whole list sums to the whole sum. */
  lemma SumWhereAll<T>(p: T -> bool, f: T -> int, xs: seq<T>)
    requires forall k :: 0 <= k < |xs| ==> p(xs[k])
    ensures SumWhere(p, f, xs) == SumBy(f, xs)
  {
    FilterKeepsAll(p, xs);
  }

  /** Sums distribute over a difference of terms. */
  lemma {:induction false} SumOfDifference<T>(f: T -> int, g: T -> int, h: T -> int, xs: seq<T>)
    requires forall x :: h(x) == f(x) - g(x)
    ensures SumBy(h, xs) == SumBy(f, xs) - SumBy(g, xs)
  {
    if |xs| > 0 {
      SumOfDifference(f, g, h, xs[..|xs| - 1]);
    }
  }
}
