/** The sequence operations the pages are built from: JavaScript's `filter`
    and its stable `sort`, stated once for every element type. */
module Seqs {

  /** `s.filter(p)`: the elements of `s` that satisfy `p`, in their original order. */
  function Filter<T>(s: seq<T>, p: T -> bool): (r: seq<T>)
    ensures |r| <= |s|
  {
    if s == [] then []
    else (if p(s[0]) then [s[0]] else []) + Filter(s[1..], p)
  }

  /** An element survives the filter exactly when it is in the input and satisfies `p`. */
  lemma {:induction false} FilterMembers<T(!new)>(s: seq<T>, p: T -> bool)
    ensures forall x :: x in Filter(s, p) <==> x in s && p(x)
  {
    if s != [] {
      FilterMembers(s[1..], p);
      assert forall x :: x in s <==> x == s[0] || x in s[1..];
    }
  }

  /** The filter keeps every copy of an element that satisfies `p` and no copy
      of one that does not. */
  lemma {:induction false} FilterCounts<T(!new)>(s: seq<T>, p: T -> bool)
    ensures forall x :: multiset(Filter(s, p))[x] == if p(x) then multiset(s)[x] else 0
  {
    if s != [] {
      FilterCounts(s[1..], p);
      assert s == [s[0]] + s[1..];
      assert multiset(s) == multiset{s[0]} + multiset(s[1..]);
    }
  }

  /** The negation of a predicate, as a value. */
  function Not<T>(p: T -> bool): T -> bool
  {
    x => !p(x)
  }

  lemma {:induction false} FilterAppend<T(!new)>(a: seq<T>, b: seq<T>, p: T -> bool)
    ensures Filter(a + b, p) == Filter(a, p) + Filter(b, p)
  {
    if a == [] {
      assert a + b == b;
    } else {
      var head := if p(a[0]) then [a[0]] else [];
      assert (a + b)[0] == a[0] && (a + b)[1..] == a[1..] + b;
      assert Filter(a + b, p) == head + Filter(a[1..] + b, p);
      FilterAppend(a[1..], b, p);
      assert Filter(a, p) == head + Filter(a[1..], p);
    }
  }

  /** Filtering by two predicates that agree everywhere keeps the same elements. */
  lemma {:induction false} FilterExtensional<T>(xs: seq<T>, p: T -> bool, q: T -> bool)
    requires forall x :: p(x) == q(x)
    ensures Filter(xs, p) == Filter(xs, q)
  {
    if xs != [] {
      FilterExtensional(xs[1..], p, q);
    }
  }

  /** The position of the first `x` in `s`. */
  function FirstIndex<T(==)>(s: seq<T>, x: T): (i: nat)
    requires x in s
    ensures i < |s| && s[i] == x && x !in s[..i]
  {
    if s[0] == x then 0 else 1 + FirstIndex(s[1..], x)
  }

  /** An element already in a prefix is first found within that prefix. */
  lemma {:induction false} FirstIndexPrefix<T>(s: seq<T>, n: nat, x: T)
    requires n <= |s| && x in s[..n]
    ensures FirstIndex(s, x) == FirstIndex(s[..n], x)
  {
    if s[0] != x {
      assert s[1..][..n - 1] == s[..n][1..];
      FirstIndexPrefix(s[1..], n - 1, x);
    }
  }

  /** `Array.from(new Set(s))`: each element once, in order of first occurrence. */
  function Distinct<T(==,!new)>(s: seq<T>): (r: seq<T>)
    ensures forall x :: x in r <==> x in s
    ensures forall i, j :: 0 <= i < j < |r| ==> r[i] != r[j]
    ensures forall i, j :: 0 <= i < j < |r| ==> FirstIndex(s, r[i]) < FirstIndex(s, r[j])
  {
    if s == [] then []
    else
      var init, last := s[..|s| - 1], s[|s| - 1];
      var r := Distinct(init);
      SplitLast(s);
      forall x | x in r ensures FirstIndex(s, x) == FirstIndex(init, x) {
        FirstIndexPrefix(s, |s| - 1, x);
      }
      if last in r then r
      else
        assert FirstIndex(s, last) == |s| - 1 by {
          assert last !in init;
        }
        r + [last]
  }

  /** Every element satisfies exactly one of `p` and its negation. */
  lemma {:induction false} FilterPartition<T(!new)>(s: seq<T>, p: T -> bool)
    ensures |Filter(s, p)| + |Filter(s, Not(p))| == |s|
  {
    if s != [] {
      FilterPartition(s[1..], p);
    }
  }

  /** A predicate every element satisfies keeps the whole sequence. */
  lemma {:induction false} FilterAll<T(!new)>(s: seq<T>, p: T -> bool)
    requires forall x :: x in s ==> p(x)
    ensures Filter(s, p) == s
  {
    if s != [] {
      FilterAll(s[1..], p);
    }
  }

  /** `a` is obtained from `b` by deleting elements, keeping the order of the rest. */
  ghost predicate IsSubsequence<T>(a: seq<T>, b: seq<T>)
    decreases |b|
  {
    if b == [] then a == []
    else IsSubsequence(a, b[1..]) || (a != [] && a[0] == b[0] && IsSubsequence(a[1..], b[1..]))
  }

  lemma {:induction false} SubsequenceReflexive<T>(s: seq<T>)
    ensures IsSubsequence(s, s)
  {
    if s != [] {
      SubsequenceReflexive(s[1..]);
    }
  }

  lemma {:induction false} SubsequenceTransitive<T>(a: seq<T>, b: seq<T>, c: seq<T>)
    requires IsSubsequence(a, b) && IsSubsequence(b, c)
    ensures IsSubsequence(a, c)
    decreases |c|
  {
    if c == [] {
      assert b == [] && a == [];
    } else if IsSubsequence(b, c[1..]) {
      SubsequenceTransitive(a, b, c[1..]);
    } else {
      assert b != [] && b[0] == c[0] && IsSubsequence(b[1..], c[1..]);
      if IsSubsequence(a, b[1..]) {
        SubsequenceTransitive(a, b[1..], c[1..]);
      } else {
        assert a != [] && a[0] == b[0] && IsSubsequence(a[1..], b[1..]);
        SubsequenceTransitive(a[1..], b[1..], c[1..]);
      }
    }
  }

  /** Sequences with the same elements, counted, hold the same elements. */
  lemma MultisetMembers<T>(a: seq<T>, b: seq<T>)
    requires multiset(a) == multiset(b)
    ensures forall x :: x in a <==> x in b
  {
    assert forall x :: x in a <==> x in multiset(a);
    assert forall x :: x in b <==> x in multiset(b);
  }

  /** A subsequence is never longer than the sequence it is taken from. */
  lemma {:induction false} SubsequenceLength<T>(a: seq<T>, b: seq<T>)
    requires IsSubsequence(a, b)
    ensures |a| <= |b|
    decreases |b|
  {
    if b != [] {
      if IsSubsequence(a, b[1..]) {
        SubsequenceLength(a, b[1..]);
      } else {
        SubsequenceLength(a[1..], b[1..]);
      }
    }
  }

  /** A subsequence holds no element that the sequence does not hold. */
  lemma {:induction false} SubsequenceMembers<T(!new)>(a: seq<T>, b: seq<T>)
    requires IsSubsequence(a, b)
    ensures forall x :: x in a ==> x in b
    decreases |b|
  {
    if b != [] {
      if IsSubsequence(a, b[1..]) {
        SubsequenceMembers(a, b[1..]);
      } else {
        SubsequenceMembers(a[1..], b[1..]);
        assert forall x :: x in a ==> x == a[0] || x in a[1..];
      }
    }
  }

  /** Filtering keeps the survivors in their original order. */
  lemma {:induction false} FilterIsSubsequence<T(!new)>(s: seq<T>, p: T -> bool)
    ensures IsSubsequence(Filter(s, p), s)
  {
    if s != [] {
      var rest := Filter(s[1..], p);
      FilterIsSubsequence(s[1..], p);
      if p(s[0]) {
        assert Filter(s, p) == [s[0]] + rest;
        assert ([s[0]] + rest)[1..] == rest;
      } else {
        assert Filter(s, p) == rest;
      }
    }
  }

  /** A stronger predicate keeps a subsequence of what a weaker one keeps. */
  lemma {:induction false} FilterMonotone<T(!new)>(s: seq<T>, p: T -> bool, q: T -> bool)
    requires forall x :: x in s && p(x) ==> q(x)
    ensures IsSubsequence(Filter(s, p), Filter(s, q))
  {
    if s == [] {
    } else {
      FilterMonotone(s[1..], p, q);
      var fp, fq := Filter(s[1..], p), Filter(s[1..], q);
      if p(s[0]) {
        assert Filter(s, p) == [s[0]] + fp && Filter(s, q) == [s[0]] + fq;
        assert ([s[0]] + fq)[1..] == fq;
      } else if q(s[0]) {
        assert Filter(s, p) == fp && Filter(s, q) == [s[0]] + fq;
        assert ([s[0]] + fq)[1..] == fq;
      } else {
        assert Filter(s, p) == fp && Filter(s, q) == fq;
        FilterIsSubsequence(s[1..], p);
        SubsequenceReflexive(fq);
      }
    }
  }

  // ---------------------------------------------------------------------
  // Ordering by a comparator

  /** The properties a comparator needs for sorting to make sense: any two
      elements are comparable, and the relation is transitive. */
  ghost predicate TotalPreorder<T(!new)>(le: (T, T) -> bool)
  {
    && (forall x, y :: le(x, y) || le(y, x))
    && (forall x, y, z :: le(x, y) && le(y, z) ==> le(x, z))
  }

  /** Every element is `le` every later element. */
  ghost predicate Sorted<T>(le: (T, T) -> bool, s: seq<T>)
  {
    forall i, j :: 0 <= i < j < |s| ==> le(s[i], s[j])
  }

  /** The elements `le` places level with `x`. */
  function EquivalentTo<T>(le: (T, T) -> bool, x: T): T -> bool
  {
    y => le(x, y) && le(y, x)
  }

  /** Places `x` after every element of `s`, counted from the right, that is
      not `le`-after it: the step of a stable insertion sort. */
  function Insert<T>(le: (T, T) -> bool, x: T, s: seq<T>): (r: seq<T>)
    ensures |r| == |s| + 1
    ensures multiset(r) == multiset(s) + multiset{x}
  {
    if s == [] then [x]
    else if le(s[|s| - 1], x) then s + [x]
    else
      assert s == s[..|s| - 1] + [s[|s| - 1]];
      Insert(le, x, s[..|s| - 1]) + [s[|s| - 1]]
  }

  /** Stable insertion sort: each element in turn is inserted into the sorted
      prefix before it. This is the reference the in-place sort is proved against. */
  function StableSort<T>(le: (T, T) -> bool, s: seq<T>): (r: seq<T>)
    ensures multiset(r) == multiset(s)
  {
    if s == [] then []
    else
      assert s == s[..|s| - 1] + [s[|s| - 1]];
      Insert(le, s[|s| - 1], StableSort(le, s[..|s| - 1]))
  }

  /** A non-empty sequence is its prefix followed by its last element. */
  lemma SplitLast<T>(s: seq<T>)
    requires s != []
    ensures s == s[..|s| - 1] + [s[|s| - 1]]
  {
  }

  /** Placing `x` at `j` and then appending the last element is placing it at `j` in the whole. */
  lemma PlaceBeforeLast<T>(s: seq<T>, x: T, j: nat)
    requires j < |s|
    ensures s[..j] + [x] + s[j..] == s[..|s| - 1][..j] + [x] + s[..|s| - 1][j..] + [s[|s| - 1]]
  {
    var init := s[..|s| - 1];
    assert init[..j] == s[..j];
    assert init[j..] + [s[|s| - 1]] == s[j..];
  }

  /** Where `Insert` puts `x` when the elements from `j` on are all strictly after it. */
  lemma {:induction false} InsertAt<T>(le: (T, T) -> bool, x: T, s: seq<T>, j: nat)
    requires j <= |s|
    requires j == 0 || le(s[j - 1], x)
    requires forall k :: j <= k < |s| ==> !le(s[k], x)
    ensures Insert(le, x, s) == s[..j] + [x] + s[j..]
    decreases |s|
  {
    if j == |s| {
      assert s[..j] == s && s[j..] == [];
      if s != [] {
        assert le(s[|s| - 1], x);
      }
    } else {
      var init, last := s[..|s| - 1], s[|s| - 1];
      assert Insert(le, x, s) == Insert(le, x, init) + [last] by {
        assert !le(last, x);
      }
      assert forall k :: j <= k < |init| ==> !le(init[k], x) by {
        forall k | j <= k < |init| ensures !le(init[k], x) {
          assert init[k] == s[k];
        }
      }
      InsertAt(le, x, init, j);
      PlaceBeforeLast(s, x, j);
    }
  }

  lemma {:induction false} InsertSorted<T(!new)>(le: (T, T) -> bool, x: T, s: seq<T>)
    requires TotalPreorder(le) && Sorted(le, s)
    ensures Sorted(le, Insert(le, x, s))
  {
    if s == [] {
    } else if le(s[|s| - 1], x) {
      var r := s + [x];
      forall i, j | 0 <= i < j < |r| ensures le(r[i], r[j]) {
        if j == |s| && i < |s| - 1 {
          assert le(s[i], s[|s| - 1]);
        }
      }
    } else {
      var init, last := s[..|s| - 1], s[|s| - 1];
      InsertSorted(le, x, init);
      var mid := Insert(le, x, init);
      var r := mid + [last];
      forall i, j | 0 <= i < j < |r| ensures le(r[i], r[j]) {
        if j == |mid| {
          assert r[i] in multiset(mid);
          if r[i] != x {
            assert r[i] in init;
            var k :| 0 <= k < |init| && init[k] == r[i];
            assert le(s[k], s[|s| - 1]);
          }
        }
      }
    }
  }

  /** The result of the sort is ordered by the comparator. */
  lemma {:induction false} StableSortSorted<T(!new)>(le: (T, T) -> bool, s: seq<T>)
    requires TotalPreorder(le)
    ensures Sorted(le, StableSort(le, s))
  {
    if s != [] {
      StableSortSorted(le, s[..|s| - 1]);
      InsertSorted(le, s[|s| - 1], StableSort(le, s[..|s| - 1]));
    }
  }

  lemma {:induction false} InsertStable<T(!new)>(le: (T, T) -> bool, x: T, s: seq<T>, t: T)
    requires TotalPreorder(le)
    ensures Filter(Insert(le, x, s), EquivalentTo(le, t))
         == Filter(s, EquivalentTo(le, t)) + Filter([x], EquivalentTo(le, t))
    decreases |s|
  {
    var e := EquivalentTo(le, t);
    if s == [] {
      assert Insert(le, x, s) == [x];
      assert Filter(s, e) == [];
    } else if le(s[|s| - 1], x) {
      assert Insert(le, x, s) == s + [x];
      FilterAppend(s, [x], e);
    } else {
      var init, last := s[..|s| - 1], s[|s| - 1];
      var mid := Insert(le, x, init);
      assert Insert(le, x, s) == mid + [last];
      SplitLast(s);
      InsertStable(le, x, init, t);
      FilterAppend(mid, [last], e);
      FilterAppend(init, [last], e);
      assert Filter(mid + [last], e) == Filter(init, e) + Filter([x], e) + Filter([last], e);
      assert Filter(s, e) == Filter(init, e) + Filter([last], e);
      assert !(e(x) && e(last));
      assert Filter([x], e) == [] || Filter([last], e) == [];
    }
  }

  /** Stability: the elements placed level with any `t` keep their input order. */
  lemma {:induction false} StableSortStable<T(!new)>(le: (T, T) -> bool, s: seq<T>, t: T)
    requires TotalPreorder(le)
    ensures Filter(StableSort(le, s), EquivalentTo(le, t)) == Filter(s, EquivalentTo(le, t))
  {
    var e := EquivalentTo(le, t);
    if s != [] {
      var init, last := s[..|s| - 1], s[|s| - 1];
      assert StableSort(le, s) == Insert(le, last, StableSort(le, init));
      StableSortStable(le, init, t);
      InsertStable(le, last, StableSort(le, init), t);
      SplitLast(s);
      FilterAppend(init, [last], e);
    }
  }

  /** The sort of a one-longer prefix inserts the next element into the sort of the prefix. */
  lemma StableSortStep<T>(le: (T, T) -> bool, s: seq<T>, i: nat)
    requires i < |s|
    ensures StableSort(le, s[..i + 1]) == Insert(le, s[i], StableSort(le, s[..i]))
  {
    assert s[..i + 1][..i] == s[..i];
  }

  /** An already ordered sequence is left exactly as it is. */
  lemma {:induction false} StableSortOfSorted<T>(le: (T, T) -> bool, s: seq<T>)
    requires Sorted(le, s)
    ensures StableSort(le, s) == s
  {
    if s != [] {
      var init, last := s[..|s| - 1], s[|s| - 1];
      assert Sorted(le, init) by {
        forall i, j | 0 <= i < j < |init| ensures le(init[i], init[j]) {
          assert init[i] == s[i] && init[j] == s[j];
        }
      }
      StableSortOfSorted(le, init);
      SplitLast(s);
      if init != [] {
        assert le(init[|init| - 1], last) by {
          assert init[|init| - 1] == s[|s| - 2];
        }
      }
      assert Insert(le, last, init) == init + [last];
    }
  }

  /** Sorting twice by the same comparator gives the same as sorting once. */
  lemma SortIdempotent<T(!new)>(le: (T, T) -> bool, s: seq<T>)
    requires TotalPreorder(le)
    ensures StableSort(le, StableSort(le, s)) == StableSort(le, s)
  {
    StableSortSorted(le, s);
    StableSortOfSorted(le, StableSort(le, s));
  }

  /** Filtering an ordered sequence leaves it ordered. */
  lemma {:induction false} FilterSorted<T(!new)>(le: (T, T) -> bool, s: seq<T>, p: T -> bool)
    requires Sorted(le, s)
    ensures Sorted(le, Filter(s, p))
  {
    if s != [] {
      assert Sorted(le, s[1..]);
      FilterSorted(le, s[1..], p);
      var rest := Filter(s[1..], p);
      if p(s[0]) {
        var r := [s[0]] + rest;
        forall i, j | 0 <= i < j < |r| ensures le(r[i], r[j]) {
          if i == 0 {
            FilterMembers(s[1..], p);
            assert r[j] in rest;
            assert r[j] in s[1..];
            var k :| 0 <= k < |s[1..]| && s[1..][k] == r[j];
            assert le(s[0], s[k + 1]);
          } else {
            assert r[i] == rest[i - 1] && r[j] == rest[j - 1];
          }
        }
      }
    }
  }

  /** One step of the in-place insertion sort: `a[i]` moves left past the
      elements of the sorted prefix `a[..i]` that are strictly after it. */
  method InsertInPlace<T>(a: array<T>, i: nat, le: (T, T) -> bool)
    requires i < a.Length
    modifies a
    ensures a[..i + 1] == Insert(le, old(a[i]), old(a[..i]))
    ensures forall k :: i < k < a.Length ==> a[k] == old(a[k])
  {
    ghost var prefix := a[..i];
    var x := a[i];
    var j := i;
    while j > 0 && !le(a[j - 1], x)
      invariant 0 <= j <= i
      invariant forall k :: 0 <= k < j ==> a[k] == prefix[k]
      invariant forall k :: j < k <= i ==> a[k] == prefix[k - 1]
      invariant forall k :: i < k < a.Length ==> a[k] == old(a[k])
      invariant forall k :: j <= k < i ==> !le(prefix[k], x)
    {
      a[j] := a[j - 1];
      j := j - 1;
    }
    a[j] := x;
    InsertAt(le, x, prefix, j);
    ShiftedIsPlaced(a[..i + 1], prefix, x, j);
  }

  /** A sequence that agrees with `prefix` left of `j`, holds `x` at `j` and
      holds `prefix` shifted one place right after `j` is `x` placed at `j`. */
  lemma ShiftedIsPlaced<T>(b: seq<T>, prefix: seq<T>, x: T, j: nat)
    requires j <= |prefix| && |b| == |prefix| + 1
    requires forall k :: 0 <= k < j ==> b[k] == prefix[k]
    requires b[j] == x
    requires forall k :: j < k < |b| ==> b[k] == prefix[k - 1]
    ensures b == prefix[..j] + [x] + prefix[j..]
  {
    var placed := prefix[..j] + [x] + prefix[j..];
    forall k | 0 <= k < |b| ensures b[k] == placed[k] {
      if k < j {
        assert placed[k] == prefix[k];
      } else if j < k {
        assert placed[k] == prefix[k - 1];
      }
    }
  }

  /** `a[..]` after sorting the array `a` in place, stably, by `le`: the same
      insertion sort as `StableSort`, shifting larger elements right. */
  method InsertionSort<T>(a: array<T>, le: (T, T) -> bool)
    modifies a
    ensures a[..] == StableSort(le, old(a[..]))
  {
    ghost var input := a[..];
    var i := 0;
    while i < a.Length
      invariant 0 <= i <= a.Length
      invariant a[..i] == StableSort(le, input[..i])
      invariant forall k :: i <= k < a.Length ==> a[k] == input[k]
    {
      InsertInPlace(a, i, le);
      StableSortStep(le, input, i);
      i := i + 1;
    }
    assert a[..] == a[..a.Length] && input == input[..a.Length];
  }
}
