// The JavaScript array operations the pages are built from: filter, find,
// some/every, slice-based pagination and `[...new Set(xs)]`.

module Seqs {

  datatype Option<T> = None | Some(value: T)

  /** Array.prototype.filter: the elements satisfying p, in their original order. */
  function Filter<T>(s: seq<T>, p: T -> bool): (r: seq<T>)
    ensures |r| <= |s|
    ensures forall i :: 0 <= i < |r| ==> r[i] in s && p(r[i])
    ensures forall i :: 0 <= i < |s| && p(s[i]) ==> s[i] in r
    decreases |s|
  {
    if s == [] then [] else (if p(s[0]) then [s[0]] else []) + Filter(s[1..], p)
  }

  /** Filtering distributes over concatenation, so it keeps the relative order. */
  lemma {:induction false} FilterConcat<T>(a: seq<T>, b: seq<T>, p: T -> bool)
    ensures Filter(a + b, p) == Filter(a, p) + Filter(b, p)
    decreases |a|
  {
    if a == [] {
      assert a + b == b;
    } else {
      assert (a + b)[1..] == a[1..] + b;
      FilterConcat(a[1..], b, p);
    }
  }

  /** Splitting by a predicate and its negation keeps every element exactly
      once: `s.filter(q).concat(s.filter(p))`, with q the negation of p, is a
      permutation. */
  lemma {:induction false} FilterSplitPermutes<T>(s: seq<T>, p: T -> bool, q: T -> bool)
    requires forall x :: q(x) == !p(x)
    ensures multiset(Filter(s, q) + Filter(s, p)) == multiset(s)
    decreases |s|
  {
    if s != [] {
      FilterSplitPermutes(s[1..], p, q);
      var hq, hp := (if q(s[0]) then [s[0]] else []), (if p(s[0]) then [s[0]] else []);
      assert Filter(s, q) == hq + Filter(s[1..], q);
      assert Filter(s, p) == hp + Filter(s[1..], p);
      assert s == [s[0]] + s[1..];
      SplitJoins(s[0], hq, hp, Filter(s[1..], q), Filter(s[1..], p), s[1..]);
    }
  }

  /** The multiset step of FilterSplitPermutes: the head lands in exactly one
      of the two parts. */
  lemma SplitJoins<T>(x: T, hq: seq<T>, hp: seq<T>, fq: seq<T>, fp: seq<T>, rest: seq<T>)
    requires multiset(hq + hp) == multiset([x])
    requires multiset(fq + fp) == multiset(rest)
    ensures multiset(hq + fq + (hp + fp)) == multiset([x] + rest)
  {
  }

  /** Two filters in a row are one filter by the conjunction. */
  lemma {:induction false} FilterTwice<T>(s: seq<T>, p: T -> bool, q: T -> bool, pq: T -> bool)
    requires forall x :: pq(x) == (p(x) && q(x))
    ensures Filter(Filter(s, p), q) == Filter(s, pq)
    decreases |s|
  {
    if s != [] {
      FilterTwice(s[1..], p, q, pq);
      var head := if p(s[0]) then [s[0]] else [];
      assert Filter(s, p) == head + Filter(s[1..], p);
      FilterConcat(head, Filter(s[1..], p), q);
    }
  }

  /** Filters by predicates that agree everywhere agree. */
  lemma {:induction false} FilterSame<T>(s: seq<T>, p: T -> bool, q: T -> bool)
    requires forall x :: p(x) == q(x)
    ensures Filter(s, p) == Filter(s, q)
    decreases |s|
  {
    if s != [] {
      FilterSame(s[1..], p, q);
    }
  }

  /** A filter that no element passes leaves nothing. */
  lemma {:induction false} FilterKeepsNone<T>(s: seq<T>, p: T -> bool)
    requires forall i :: 0 <= i < |s| ==> !p(s[i])
    ensures Filter(s, p) == []
    decreases |s|
  {
    if s != [] {
      FilterKeepsNone(s[1..], p);
    }
  }

  /** A filter that every element passes changes nothing. */
  lemma {:induction false} FilterKeepsAll<T>(s: seq<T>, p: T -> bool)
    requires forall i :: 0 <= i < |s| ==> p(s[i])
    ensures Filter(s, p) == s
    decreases |s|
  {
    if s != [] {
      FilterKeepsAll(s[1..], p);
    }
  }

  /** Array.prototype.map. */
  function Map<T, U>(s: seq<T>, f: T -> U): (r: seq<U>)
    ensures |r| == |s|
    ensures forall i :: 0 <= i < |s| ==> r[i] == f(s[i])
    decreases |s|
  {
    if s == [] then [] else [f(s[0])] + Map(s[1..], f)
  }

  /** Array.prototype.findIndex: the first index whose element satisfies p. */
  function FindIndex<T>(s: seq<T>, p: T -> bool): (r: Option<nat>)
    ensures r.Some? ==> r.value < |s| && p(s[r.value])
    ensures r.Some? ==> forall j :: 0 <= j < r.value ==> !p(s[j])
    ensures r.None? <==> forall j :: 0 <= j < |s| ==> !p(s[j])
    decreases |s|
  {
    if s == [] then None
    else if p(s[0]) then Some(0)
    else match FindIndex(s[1..], p)
      case None => None
      case Some(i) => Some(i + 1)
  }

  /** Array.prototype.find: the first element satisfying p, or undefined. */
  function Find<T>(s: seq<T>, p: T -> bool): (r: Option<T>)
    ensures r.None? <==> forall j :: 0 <= j < |s| ==> !p(s[j])
    ensures r.Some? ==> r.value in s && p(r.value)
    ensures r.Some? ==> exists i :: 0 <= i < |s| && s[i] == r.value && p(s[i]) && forall j :: 0 <= j < i ==> !p(s[j])
  {
    match FindIndex(s, p)
    case None => None
    case Some(i) => Some(s[i])
  }

  /** Array.prototype.some. */
  predicate Any<T>(s: seq<T>, p: T -> bool)
  {
    exists i :: 0 <= i < |s| && p(s[i])
  }

  /** Array.prototype.every: a left-to-right scan that stops at the first failure. */
  function Every<T>(s: seq<T>, p: T -> bool): (b: bool)
    ensures b <==> forall i :: 0 <= i < |s| ==> p(s[i])
    decreases |s|
  {
    if s == [] then true else p(s[0]) && Every(s[1..], p)
  }

  /** Number of elements satisfying p; the pages write it `.filter(p).length`. */
  function Count<T>(s: seq<T>, p: T -> bool): (n: nat)
    ensures n <= |s|
    ensures n == 0 <==> forall i :: 0 <= i < |s| ==> !p(s[i])
    decreases |s|
  {
    if s == [] then 0 else (if p(s[0]) then 1 else 0) + Count(s[1..], p)
  }

  /** Counting agrees with the length of the filtered list. */
  lemma {:induction false} CountIsFilterLength<T>(s: seq<T>, p: T -> bool)
    ensures Count(s, p) == |Filter(s, p)|
    decreases |s|
  {
    if s != [] {
      CountIsFilterLength(s[1..], p);
    }
  }

  /** `.filter((x) => x != undefined)` after a `find` per element: the found
      values, in order. */
  function Somes<T>(s: seq<Option<T>>): (r: seq<T>)
    ensures |r| <= |s|
    ensures forall i :: 0 <= i < |r| ==> Some(r[i]) in s
    ensures forall i :: 0 <= i < |s| && s[i].Some? ==> s[i].value in r
    decreases |s|
  {
    if s == [] then []
    else
      var rest := Somes(s[1..]);
      assert forall i :: 0 <= i < |rest| ==> Some(rest[i]) in s by {
        forall i | 0 <= i < |rest| ensures Some(rest[i]) in s { assert Some(rest[i]) in s[1..]; }
      }
      match s[0]
      case None => rest
      case Some(x) => [x] + rest
  }

  /** An element rendered only under a condition, as `{c && <b/>}` is. */
  function When<T(!new)>(c: bool, b: T): (r: seq<T>)
    ensures forall x :: x in r <==> c && x == b
  {
    if c then [b] else []
  }

  const PageSize: nat := 10

  /** `s.slice(page * 10, page * 10 + 10)`; slice clamps both ends to the length. */
  function Page<T>(s: seq<T>, page: nat): (r: seq<T>)
    ensures |r| <= PageSize
    ensures forall k :: 0 <= k < |r| ==> page * PageSize + k < |s| && r[k] == s[page * PageSize + k]
    ensures page * PageSize + PageSize <= |s| ==> |r| == PageSize
    ensures page * PageSize < |s| ==> |r| > 0
  {
    var start := if page * PageSize < |s| then page * PageSize else |s|;
    var end := if page * PageSize + PageSize < |s| then page * PageSize + PageSize else |s|;
    s[start..end]
  }

  /** Every element is shown on exactly the page its index selects, at the
      position the index selects. */
  lemma PageCovers<T>(s: seq<T>, i: nat)
    requires i < |s|
    ensures i % PageSize < |Page(s, i / PageSize)|
    ensures Page(s, i / PageSize)[i % PageSize] == s[i]
  {
    var p := i / PageSize;
    assert p * PageSize <= i < p * PageSize + PageSize;
  }

  /** Index of the first occurrence of x. */
  function IndexOf<T(==)>(s: seq<T>, x: T): (i: nat)
    requires x in s
    ensures i < |s| && s[i] == x
    ensures forall j :: 0 <= j < i ==> s[j] != x
    decreases |s|
  {
    if s[0] == x then 0 else 1 + IndexOf(s[1..], x)
  }

  lemma {:induction false} IndexOfPrefix<T>(s: seq<T>, x: T, y: T)
    requires x in s
    ensures IndexOf(s + [y], x) == IndexOf(s, x)
    decreases |s|
  {
    if s[0] != x {
      assert (s + [y])[1..] == s[1..] + [y];
      IndexOfPrefix(s[1..], x, y);
    }
  }

  predicate Distinct<T(==)>(s: seq<T>)
  {
    forall i, j :: 0 <= i < j < |s| ==> s[i] != s[j]
  }

  /** `[...new Set(s)]`: the distinct elements in the order of their first occurrence. */
  function Dedup<T(==)>(s: seq<T>): (r: seq<T>)
    ensures forall i :: 0 <= i < |r| ==> r[i] in s
    ensures forall i :: 0 <= i < |s| ==> s[i] in r
    ensures Distinct(r)
    ensures forall i, j :: 0 <= i < j < |r| ==> IndexOf(s, r[i]) < IndexOf(s, r[j])
    decreases |s|
  {
    if s == [] then []
    else
      var init := s[..|s| - 1];
      var x := s[|s| - 1];
      var d := Dedup(init);
      assert s == init + [x];
      forall y | y in init
        ensures IndexOf(s, y) == IndexOf(init, y) < |init|
      {
        IndexOfPrefix(init, y, x);
      }
      if x in init then d
      else
        assert IndexOf(s, x) == |init|;
        d + [x]
  }
}
