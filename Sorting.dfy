/** A stable sort by a total preorder, standing for Python's sorted() (a
    stable sort, also with reverse=True) and for the ORDER BY of a query
    whose last sort key is the primary key. */
module Sorting {
  import opened Common

  ghost predicate Total<T(!new)>(le: (T, T) -> bool)
  {
    forall a, b :: le(a, b) || le(b, a)
  }

  ghost predicate Transitive<T(!new)>(le: (T, T) -> bool)
  {
    forall a, b, c :: le(a, b) && le(b, c) ==> le(a, c)
  }

  predicate Sorted<T>(s: seq<T>, le: (T, T) -> bool)
  {
    forall i, j :: 0 <= i < j < |s| ==> le(s[i], s[j])
  }

  /** Puts x in front of the first element it is not after. */
  function Insert<T>(x: T, s: seq<T>, le: (T, T) -> bool): (r: seq<T>)
    ensures multiset(r) == multiset{x} + multiset(s)
    ensures |r| == |s| + 1
    decreases |s|
  {
    if s == [] || le(x, s[0]) then [x] + s
    else
      assert s == [s[0]] + s[1..];
      [s[0]] + Insert(x, s[1..], le)
  }

  /** Insertion sort from the back: each element goes before the
      elements it is not after, so equal elements keep their order. */
  function SortBy<T>(xs: seq<T>, le: (T, T) -> bool): (r: seq<T>)
    ensures multiset(r) == multiset(xs)
    ensures |r| == |xs|
    decreases |xs|
  {
    if xs == [] then []
    else
      assert xs == [xs[0]] + xs[1..];
      Insert(xs[0], SortBy(xs[1..], le), le)
  }

  /** An element no greater than any of a sorted list may go in front. */
  lemma ConsSorted<T>(h: T, t: seq<T>, le: (T, T) -> bool)
    requires Sorted(t, le)
    requires forall k :: 0 <= k < |t| ==> le(h, t[k])
    ensures Sorted([h] + t, le)
  {
    var r := [h] + t;
    forall i, j | 0 <= i < j < |r| ensures le(r[i], r[j]) {
      if i == 0 {
        assert r[j] == t[j - 1];
      } else {
        assert r[i] == t[i - 1] && r[j] == t[j - 1];
      }
    }
  }

  lemma InsertBound<T(!new)>(x: T, s: seq<T>, le: (T, T) -> bool)
    requires Total(le)
    requires s != [] && Sorted(s, le) && !le(x, s[0])
    ensures forall k :: 0 <= k < |Insert(x, s[1..], le)| ==> le(s[0], Insert(x, s[1..], le)[k])
  {
    var tail := s[1..];
    var ins := Insert(x, tail, le);
    assert le(s[0], x);
    forall k | 0 <= k < |ins| ensures le(s[0], ins[k]) {
      var e := ins[k];
      assert e in multiset(ins);
      if e != x {
        assert e in multiset(tail);
        var m :| 0 <= m < |tail| && tail[m] == e;
        assert s[m + 1] == e;
      }
    }
  }

  lemma {:induction false} InsertSorted<T(!new)>(x: T, s: seq<T>, le: (T, T) -> bool)
    requires Total(le) && Transitive(le)
    requires Sorted(s, le)
    ensures Sorted(Insert(x, s, le), le)
    decreases |s|
  {
    if s == [] || le(x, s[0]) {
      forall k | 0 <= k < |s| ensures le(x, s[k]) {
        if k > 0 {
          assert le(s[0], s[k]);
        }
      }
      ConsSorted(x, s, le);
    } else {
      var tail := s[1..];
      assert Sorted(tail, le) by {
        forall i, j | 0 <= i < j < |tail| ensures le(tail[i], tail[j]) {
          assert tail[i] == s[i + 1] && tail[j] == s[j + 1];
        }
      }
      InsertSorted(x, tail, le);
      InsertBound(x, s, le);
      ConsSorted(s[0], Insert(x, tail, le), le);
    }
  }

  /** The result is sorted (and, by SortBy's contract, a permutation). */
  lemma {:induction false} SortBySorted<T(!new)>(xs: seq<T>, le: (T, T) -> bool)
    requires Total(le) && Transitive(le)
    ensures Sorted(SortBy(xs, le), le)
    decreases |xs|
  {
    if xs != [] {
      SortBySorted(xs[1..], le);
      InsertSorted(xs[0], SortBy(xs[1..], le), le);
    }
  }

  predicate Equivalent<T>(le: (T, T) -> bool, a: T, b: T)
  {
    le(a, b) && le(b, a)
  }

  lemma EquivalentChain<T(!new)>(le: (T, T) -> bool, x: T, y: T, z: T)
    requires Transitive(le)
    ensures Equivalent(le, x, y) && Equivalent(le, z, y) ==> le(x, z)
  {
  }

  /** The elements equivalent to y. */
  function EquivTo<T>(le: (T, T) -> bool, y: T): T -> bool
  {
    e => Equivalent(le, e, y)
  }

  lemma {:induction false} FilterInsert<T(!new)>(x: T, s: seq<T>, le: (T, T) -> bool, y: T)
    requires Total(le) && Transitive(le)
    ensures Filter(Insert(x, s, le), EquivTo(le, y))
         == (if Equivalent(le, x, y) then [x] else []) + Filter(s, EquivTo(le, y))
    decreases |s|
  {
    var p := EquivTo(le, y);
    var hx: seq<T> := if Equivalent(le, x, y) then [x] else [];
    assert p(x) == Equivalent(le, x, y);
    if s == [] || le(x, s[0]) {
      assert Insert(x, s, le) == [x] + s;
      FilterCons(x, s, p);
      assert Filter(Insert(x, s, le), p) == hx + Filter(s, p);
    } else {
      var tail := s[1..];
      FilterInsert(x, tail, le, y);
      var ins := Insert(x, tail, le);
      assert Insert(x, s, le) == [s[0]] + ins;
      assert s == [s[0]] + tail;
      FilterCons(s[0], ins, p);
      FilterCons(s[0], tail, p);
      var hs: seq<T> := if p(s[0]) then [s[0]] else [];
      var ft := Filter(tail, p);
      assert Filter(Insert(x, s, le), p) == hs + (hx + ft);
      assert Filter(s, p) == hs + ft;
      assert p(s[0]) == Equivalent(le, s[0], y);
      EquivalentChain(le, x, y, s[0]);
      if p(x) && p(s[0]) {
        assert false;
      }
      if hs == [] {
        assert hs + (hx + ft) == hx + ft;
        assert hs + ft == ft;
      } else {
        assert hx == [];
        assert hx + ft == ft;
        assert hx + (hs + ft) == hs + ft;
      }
      assert Filter(Insert(x, s, le), p) == hx + Filter(s, p);
    }
  }

  /** Stability: the elements equivalent to any y appear in the result in
      the same order as in the input. */
  lemma {:induction false} SortByStable<T(!new)>(xs: seq<T>, le: (T, T) -> bool, y: T)
    requires Total(le) && Transitive(le)
    ensures Filter(SortBy(xs, le), EquivTo(le, y)) == Filter(xs, EquivTo(le, y))
    decreases |xs|
  {
    if xs != [] {
      SortByStable(xs[1..], le, y);
      FilterInsert(xs[0], SortBy(xs[1..], le), le, y);
    }
  }

  ghost predicate Antisymmetric<T(!new)>(le: (T, T) -> bool)
  {
    forall a, b :: le(a, b) && le(b, a) ==> a == b
  }

  lemma SortedTail<T>(a: seq<T>, le: (T, T) -> bool)
    requires a != [] && Sorted(a, le)
    ensures Sorted(a[1..], le)
  {
    forall x, y | 0 <= x < y < |a[1..]| ensures le(a[1..][x], a[1..][y]) {
      assert a[1..][x] == a[x + 1] && a[1..][y] == a[y + 1];
    }
  }

  lemma MultisetTail<T>(a: seq<T>, b: seq<T>)
    requires a != [] && b != [] && a[0] == b[0]
    requires multiset(a) == multiset(b)
    ensures multiset(a[1..]) == multiset(b[1..])
  {
    assert a == [a[0]] + a[1..] && b == [b[0]] + b[1..];
    assert multiset(a[1..]) == multiset(a) - multiset{a[0]};
    assert multiset(b[1..]) == multiset(b) - multiset{b[0]};
  }

  /** Two sorted arrangements of one multiset begin alike. */
  lemma SortedHead<T(!new)>(a: seq<T>, b: seq<T>, le: (T, T) -> bool)
    requires Antisymmetric(le)
    requires a != [] && b != [] && Sorted(a, le) && Sorted(b, le)
    requires multiset(a) == multiset(b)
    ensures a[0] == b[0]
  {
    assert a[0] in multiset(b) && b[0] in multiset(a);
    var j :| 0 <= j < |b| && b[j] == a[0];
    var i :| 0 <= i < |a| && a[i] == b[0];
    if i > 0 && j > 0 {
      assert le(a[0], a[i]) && le(b[0], b[j]);
    }
  }

  /** Under an antisymmetric order there is one sorted arrangement of a
      multiset of elements. */
  lemma {:induction false} SortedUnique<T(!new)>(a: seq<T>, b: seq<T>, le: (T, T) -> bool)
    requires Antisymmetric(le)
    requires Sorted(a, le) && Sorted(b, le)
    requires multiset(a) == multiset(b)
    ensures a == b
    decreases |a|
  {
    assert |a| == |multiset(a)| == |multiset(b)| == |b|;
    if a != [] {
      SortedHead(a, b, le);
      MultisetTail(a, b);
      SortedTail(a, le);
      SortedTail(b, le);
      SortedUnique(a[1..], b[1..], le);
      assert a == [a[0]] + a[1..] && b == [b[0]] + b[1..];
    }
  }
}
