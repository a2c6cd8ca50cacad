/**
 * The LINQ operators the controllers chain into database queries: Where,
 * OrderBy/ThenBy (ascending or descending, on one or more columns), Take,
 * Skip and Distinct, over the rows of a table in store order.
 *
 * A sort key is a sequence of integers compared lexicographically, so that
 * `OrderByDescending(l => l.IsFeatured).ThenByDescending(l => l.UpdatedAt)`
 * becomes the key `[featured ? 0 : 1, -updatedAt]`. Ties keep store order.
 */
module Ordering {
  import opened Optional

  /** Lexicographic order on keys: the first differing entry decides; a proper prefix comes first. */
  predicate KeyLe(a: seq<int>, b: seq<int>) {
    if a == [] then true
    else if b == [] then false
    else a[0] < b[0] || (a[0] == b[0] && KeyLe(a[1..], b[1..]))
  }

  lemma {:induction false} KeyLeTotal(a: seq<int>, b: seq<int>)
    ensures KeyLe(a, b) || KeyLe(b, a)
  {
    if a != [] && b != [] && a[0] == b[0] {
      KeyLeTotal(a[1..], b[1..]);
    }
  }

  lemma {:induction false} KeyLeTransitive(a: seq<int>, b: seq<int>, c: seq<int>)
    requires KeyLe(a, b) && KeyLe(b, c)
    ensures KeyLe(a, c)
  {
    if a != [] && b != [] && c != [] && a[0] == b[0] && b[0] == c[0] {
      KeyLeTransitive(a[1..], b[1..], c[1..]);
    }
  }

  lemma {:induction false} KeyLeAntisymmetric(a: seq<int>, b: seq<int>)
    requires KeyLe(a, b) && KeyLe(b, a)
    ensures a == b
  {
    if a != [] && b != [] {
      KeyLeAntisymmetric(a[1..], b[1..]);
      assert a == [a[0]] + a[1..];
      assert b == [b[0]] + b[1..];
    }
  }

  /** A one-column key orders by that column. */
  lemma KeyLeSingle(a: int, b: int)
    ensures KeyLe([a], [b]) <==> a <= b
  {
    assert [a][1..] == [] && [b][1..] == [];
  }

  /** A two-column key orders by the first column, then by the second. */
  lemma KeyLePair(a0: int, a1: int, b0: int, b1: int)
    ensures KeyLe([a0, a1], [b0, b1]) <==> a0 < b0 || (a0 == b0 && a1 <= b1)
  {
    assert [a0, a1][1..] == [a1] && [b0, b1][1..] == [b1];
    KeyLeSingle(a1, b1);
  }

  /** Every element's key is at most the key of every later element. */
  predicate SortedBy<T>(s: seq<T>, key: T -> seq<int>) {
    forall i, j :: 0 <= i < j < |s| ==> KeyLe(key(s[i]), key(s[j]))
  }

  /** Inserts `x` before the first element whose key is not below `x`'s. */
  function Insert<T>(x: T, s: seq<T>, key: T -> seq<int>): (r: seq<T>)
    requires SortedBy(s, key)
    ensures SortedBy(r, key)
    ensures multiset(r) == multiset(s) + multiset{x}
    ensures |r| == |s| + 1
    ensures forall y :: y in r ==> y in s || y == x
  {
    if s == [] then [x]
    else if KeyLe(key(x), key(s[0])) then
      forall j | 0 <= j < |s| ensures KeyLe(key(x), key(s[j])) {
        if j > 0 { KeyLeTransitive(key(x), key(s[0]), key(s[j])); }
      }
      [x] + s
    else
      var rest := Insert(x, s[1..], key);
      KeyLeTotal(key(x), key(s[0]));
      assert s == [s[0]] + s[1..];
      forall y | y in rest ensures KeyLe(key(s[0]), key(y)) {
        if y != x {
          var j :| 0 <= j < |s[1..]| && s[1..][j] == y;
          assert s[j + 1] == y;
        }
      }
      [s[0]] + rest
  }

  /** OrderBy on a composite key: a sorted permutation of the input. */
  function SortBy<T>(s: seq<T>, key: T -> seq<int>): (r: seq<T>)
    ensures SortedBy(r, key)
    ensures multiset(r) == multiset(s)
    ensures |r| == |s|
  {
    if s == [] then []
    else
      assert s == [s[0]] + s[1..];
      Insert(s[0], SortBy(s[1..], key), key)
  }

  /** Where: the elements satisfying `p`, in their original order. */
  function Filter<T>(s: seq<T>, p: T -> bool): (r: seq<T>)
    ensures |r| <= |s|
    ensures forall i :: 0 <= i < |r| ==> r[i] in s && p(r[i])
    ensures forall i :: 0 <= i < |s| && p(s[i]) ==> s[i] in r
    ensures multiset(r) <= multiset(s)
  {
    if s == [] then []
    else
      assert s == [s[0]] + s[1..];
      if p(s[0]) then [s[0]] + Filter(s[1..], p) else Filter(s[1..], p)
  }

  /** Select(f): `f` of every element, in order. */
  function Select<A, B>(s: seq<A>, f: A -> B): (r: seq<B>)
    ensures |r| == |s|
    ensures forall k :: 0 <= k < |s| ==> r[k] == f(s[k])
  {
    if s == [] then [] else [f(s[0])] + Select(s[1..], f)
  }

  /** Projecting a concatenation projects each part. */
  lemma SelectAppend<A, B>(a: seq<A>, b: seq<A>, f: A -> B)
    ensures Select(a + b, f) == Select(a, f) + Select(b, f)
  {
  }

  /** Where keeps everything when every element qualifies. */
  lemma {:induction false} FilterAll<T>(s: seq<T>, p: T -> bool)
    requires forall i :: 0 <= i < |s| ==> p(s[i])
    ensures Filter(s, p) == s
  {
    if s != [] {
      FilterAll(s[1..], p);
      assert s == [s[0]] + s[1..];
    }
  }

  /** What Where keeps, stated on values. */
  /** Filtering keeps every copy of a kept element and no copy of a dropped one. */
  lemma {:induction false} FilterCounts<T>(s: seq<T>, p: T -> bool)
    ensures forall x :: multiset(Filter(s, p))[x] == if p(x) then multiset(s)[x] else 0
  {
    if s != [] {
      assert s == [s[0]] + s[1..];
      FilterCounts(s[1..], p);
    }
  }

  /** Filtering a selection of `base` by `p` selects by both tests. */
  lemma FilterNarrows<T>(base: seq<T>, s: seq<T>, before: T -> bool, p: T -> bool)
    requires forall x :: multiset(s)[x] == if before(x) then multiset(base)[x] else 0
    ensures forall x :: multiset(Filter(s, p))[x] == if before(x) && p(x) then multiset(base)[x] else 0
  {
    FilterCounts(s, p);
  }

  /** One narrowing step of a query: keep the elements of a selection of `base` that pass `p`. */
  method Narrow<T>(ghost base: seq<T>, s: seq<T>, ghost before: T -> bool, p: T -> bool) returns (r: seq<T>)
    requires forall x :: multiset(s)[x] == if before(x) then multiset(base)[x] else 0
    ensures forall x :: multiset(r)[x] == if before(x) && p(x) then multiset(base)[x] else 0
  {
    FilterNarrows(base, s, before, p);
    r := Filter(s, p);
  }

  /** A selection counted against `base` holds exactly the selected elements of `base`. */
  lemma CountsGiveMembers<T>(base: seq<T>, s: seq<T>, p: T -> bool)
    requires forall x :: multiset(s)[x] == if p(x) then multiset(base)[x] else 0
    ensures forall x :: x in s <==> x in base && p(x)
  {
    forall x ensures x in s <==> x in base && p(x) {
      assert x in s <==> x in multiset(s);
      assert x in base <==> x in multiset(base);
    }
  }

  lemma FilterMembers<T>(s: seq<T>, p: T -> bool)
    ensures forall x :: x in Filter(s, p) <==> x in s && p(x)
  {
    var r := Filter(s, p);
    forall x | x in s && p(x) ensures x in r {
      var i :| 0 <= i < |s| && s[i] == x;
    }
    forall x | x in r ensures x in s && p(x) {
      var i :| 0 <= i < |r| && r[i] == x;
    }
  }

  /** Sorting keeps exactly the same values. */
  lemma SortByMembers<T>(s: seq<T>, key: T -> seq<int>)
    ensures forall x :: x in SortBy(s, key) <==> x in s
  {
    var r := SortBy(s, key);
    assert forall x :: x in r <==> x in multiset(r);
    assert forall x :: x in s <==> x in multiset(s);
  }

  /** Where(p) followed by OrderBy(key): the elements satisfying `p`, sorted by `key`. */
  function OrderedWhere<T>(s: seq<T>, p: T -> bool, key: T -> seq<int>): (r: seq<T>)
    ensures SortedBy(r, key)
    ensures forall i :: 0 <= i < |r| ==> r[i] in s && p(r[i])
    ensures forall i :: 0 <= i < |s| && p(s[i]) ==> s[i] in r
    ensures |r| == |Filter(s, p)| <= |s|
    ensures multiset(r) == multiset(Filter(s, p))
  {
    var f := Filter(s, p);
    var r := SortBy(f, key);
    forall i | 0 <= i < |r| ensures r[i] in s && p(r[i]) {
      assert r[i] in multiset(f);
      var j :| 0 <= j < |f| && f[j] == r[i];
    }
    forall i | 0 <= i < |s| && p(s[i]) ensures s[i] in r {
      assert s[i] in f;
      assert s[i] in multiset(r);
    }
    r
  }

  /** Count(p): how many elements satisfy `p`. */
  function CountWhere<T>(s: seq<T>, p: T -> bool): (n: nat)
    ensures n <= |s|
    ensures n == 0 <==> forall i :: 0 <= i < |s| ==> !p(s[i])
  {
    if s == [] then 0 else (if p(s[0]) then 1 else 0) + CountWhere(s[1..], p)
  }

  /** Counting the rows that satisfy `p` gives the length of Where(p). */
  lemma {:induction false} CountFilter<T>(s: seq<T>, p: T -> bool)
    ensures CountWhere(s, p) == |Filter(s, p)|
  {
    if s != [] {
      CountFilter(s[1..], p);
    }
  }

  /** FirstOrDefault(p): the position of the first element satisfying `p`, if any. */
  function FirstIndex<T>(s: seq<T>, p: T -> bool): (r: Option<nat>)
    ensures r.Some? ==> r.value < |s| && p(s[r.value]) && forall j :: 0 <= j < r.value ==> !p(s[j])
    ensures r.None? <==> forall j :: 0 <= j < |s| ==> !p(s[j])
  {
    if s == [] then None
    else if p(s[0]) then Some(0)
    else match FirstIndex(s[1..], p)
      case None => None
      case Some(k) => Some(k + 1)
  }

  /** Take(n): the first `n` elements, or all of them when there are fewer. */
  function Take<T>(s: seq<T>, n: int): (r: seq<T>)
    ensures |r| <= |s| && (n >= 0 ==> |r| <= n)
    ensures r == s[..|r|]
    ensures n >= |s| ==> r == s
  {
    if n <= 0 then [] else if n >= |s| then s else s[..n]
  }

  /** Skip(n): everything after the first `n` elements (a negative count skips nothing). */
  function Skip<T>(s: seq<T>, n: int): (r: seq<T>)
    ensures |r| <= |s| && r == s[|s| - |r|..]
    ensures n <= 0 ==> r == s
    ensures 0 <= n <= |s| ==> |r| == |s| - n
  {
    if n <= 0 then s else if n >= |s| then [] else s[n..]
  }

  /** Distinct: every value once, each kept at its last occurrence. */
  function Distinct<T(==)>(s: seq<T>): (r: seq<T>)
    ensures forall i :: 0 <= i < |r| ==> r[i] in s
    ensures forall i :: 0 <= i < |s| ==> s[i] in r
    ensures forall i, j :: 0 <= i < j < |r| ==> r[i] != r[j]
  {
    if s == [] then []
    else
      var rest := Distinct(s[1..]);
      if s[0] in rest then rest else [s[0]] + rest
  }

  /** Dropping repeats from a sorted sequence leaves it sorted. */
  lemma {:induction false} DistinctSorted<T>(s: seq<T>, key: T -> seq<int>)
    requires SortedBy(s, key)
    ensures SortedBy(Distinct(s), key)
  {
    if s != [] {
      var tail := s[1..];
      assert SortedBy(tail, key) by {
        forall i, j | 0 <= i < j < |tail| ensures KeyLe(key(tail[i]), key(tail[j])) {
          assert tail[i] == s[i + 1] && tail[j] == s[j + 1];
        }
      }
      DistinctSorted(tail, key);
      var rest := Distinct(tail);
      if s[0] !in rest {
        var r := [s[0]] + rest;
        forall i, j | 0 <= i < j < |r| ensures KeyLe(key(r[i]), key(r[j])) {
          assert r[j] == rest[j - 1];
          if i == 0 {
            var k :| 0 <= k < |tail| && tail[k] == r[j];
            assert s[k + 1] == r[j];
          } else {
            assert r[i] == rest[i - 1];
          }
        }
      }
    }
  }

  /** The ordinal sort key of a string: its code points. */
  function CodePoints(s: string): (k: seq<int>)
    ensures |k| == |s|
    ensures forall i :: 0 <= i < |s| ==> k[i] == s[i] as int
  {
    if s == [] then [] else [s[0] as int] + CodePoints(s[1..])
  }

  /** Different strings have different keys, so an ordinal sort of distinct strings is strict. */
  lemma CodePointsInjective(a: string, b: string)
    requires CodePoints(a) == CodePoints(b)
    ensures a == b
  {
    assert |a| == |b|;
    forall i | 0 <= i < |a| ensures a[i] == b[i] {
      assert a[i] as int == CodePoints(a)[i];
    }
  }
}
