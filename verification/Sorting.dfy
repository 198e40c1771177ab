/**
  Stable sorting. The program sorts with the standard library's stable sort (directives,
  projection events) and, where keys are distinct, its unstable one. Both are modelled by the
  insertion sort below: StableSortIsUnique shows that, for a strict weak order, a stable sort
  has exactly one possible result, so the choice of algorithm does not matter.
*/
module Sorting {

  function Insert<T>(s: seq<T>, x: T, less: (T, T) -> bool): (r: seq<T>)
    ensures |r| == |s| + 1
  {
    if s == [] || !less(x, s[|s| - 1]) then s + [x]
    else Insert(s[..|s| - 1], x, less) + [s[|s| - 1]]
  }

  function Sort<T>(s: seq<T>, less: (T, T) -> bool): (r: seq<T>)
    ensures |r| == |s|
  {
    if s == [] then [] else Insert(Sort(s[..|s| - 1], less), s[|s| - 1], less)
  }

  /** A strict weak order on the elements of u. */
  ghost predicate WeakOrder<T>(u: seq<T>, less: (T, T) -> bool) {
    forall x, y, z {:trigger Ordered(x, y, z, less)} | x in u && y in u && z in u :: Ordered(x, y, z, less)
  }

  predicate Ordered<T>(x: T, y: T, z: T, less: (T, T) -> bool) {
    (less(x, y) ==> !less(y, x)) && (less(x, z) ==> less(x, y) || less(y, z))
  }

  ghost predicate Within<T>(s: seq<T>, u: seq<T>) {
    forall x | x in s :: x in u
  }

  ghost predicate Sorted<T>(s: seq<T>, less: (T, T) -> bool) {
    forall i, j | 0 <= i < j < |s| :: !less(s[j], s[i])
  }

  /** The elements of s that less does not tell apart from x, in their order in s. */
  ghost function Class<T>(s: seq<T>, x: T, less: (T, T) -> bool): seq<T> {
    if s == [] then []
    else Class(s[..|s| - 1], x, less) + ClassOf(s[|s| - 1], x, less)
  }

  ghost function ClassOf<T>(y: T, x: T, less: (T, T) -> bool): seq<T> {
    if !less(x, y) && !less(y, x) then [y] else []
  }

  /** r is a stable sort of s: sorted, and each class of equals in its original order. */
  ghost predicate StableSort<T>(s: seq<T>, r: seq<T>, less: (T, T) -> bool) {
    && Sorted(r, less)
    && Within(r, s) && Within(s, r)
    && (forall x | x in s :: Class(r, x, less) == Class(s, x, less))
  }

  lemma {:induction false} InsertElements<T>(s: seq<T>, x: T, less: (T, T) -> bool)
    ensures multiset(Insert(s, x, less)) == multiset(s) + multiset{x}
    ensures Within(Insert(s, x, less), s + [x]) && Within(s + [x], Insert(s, x, less))
  {
    if s == [] || !less(x, s[|s| - 1]) {
    } else {
      InsertElements(s[..|s| - 1], x, less);
      assert s == s[..|s| - 1] + [s[|s| - 1]];
    }
  }

  lemma {:induction false} SortElements<T>(s: seq<T>, less: (T, T) -> bool)
    ensures multiset(Sort(s, less)) == multiset(s)
    ensures Within(Sort(s, less), s) && Within(s, Sort(s, less))
  {
    if s != [] {
      SortElements(s[..|s| - 1], less);
      InsertElements(Sort(s[..|s| - 1], less), s[|s| - 1], less);
      assert s == s[..|s| - 1] + [s[|s| - 1]];
    }
  }

  /** Where Insert puts x: everything before is not above x, everything after is above x. */
  lemma {:induction false} InsertSplits<T>(s: seq<T>, x: T, less: (T, T) -> bool, u: seq<T>) returns (i: nat)
    requires WeakOrder(u, less) && Within(s, u) && x in u && Sorted(s, less)
    ensures i <= |s| && Insert(s, x, less) == s[..i] + [x] + s[i..]
    ensures forall k | 0 <= k < i :: !less(x, s[k])
    ensures forall k | i <= k < |s| :: less(x, s[k])
  {
    if s == [] || !less(x, s[|s| - 1]) {
      i := |s|;
      forall k | 0 <= k < i ensures !less(x, s[k]) {
        assert Ordered(x, s[i - 1], s[k], less);
      }
    } else {
      var s', z := s[..|s| - 1], s[|s| - 1];
      i := InsertSplits(s', x, less, u);
      assert s' + [z] == s && s[..i] == s'[..i];
      assert s[i..] == s'[i..] + [z];
    }
  }

  lemma InsertSorted<T>(s: seq<T>, x: T, less: (T, T) -> bool, u: seq<T>)
    requires WeakOrder(u, less) && Within(s, u) && x in u && Sorted(s, less)
    ensures Sorted(Insert(s, x, less), less)
  {
    var i := InsertSplits(s, x, less, u);
    var r := Insert(s, x, less);
    forall a, b | 0 <= a < b < |r| ensures !less(r[b], r[a]) {
      var a', b' := if a < i then a else a - 1, if b < i then b else b - 1;
      if b == i {
        assert r[b] == x && r[a] == s[a];
      } else if a == i {
        assert r[a] == x && r[b] == s[b'];
        assert Ordered(x, s[b'], x, less);
      } else {
        assert r[a] == s[a'] && r[b] == s[b'];
      }
    }
  }

  lemma {:induction false} SortSorted<T>(s: seq<T>, less: (T, T) -> bool, u: seq<T>)
    requires WeakOrder(u, less) && Within(s, u)
    ensures Sorted(Sort(s, less), less)
  {
    if s != [] {
      var s', x := s[..|s| - 1], s[|s| - 1];
      SortSorted(s', less, u);
      SortElements(s', less);
      assert x in u;
      InsertSorted(Sort(s', less), x, less, u);
    }
  }

  lemma {:induction false} InsertClass<T>(s: seq<T>, x: T, y: T, less: (T, T) -> bool, u: seq<T>)
    requires WeakOrder(u, less) && Within(s, u) && x in u && y in u
    ensures Class(Insert(s, x, less), y, less) == Class(s, y, less) + ClassOf(x, y, less)
  {
    if s == [] || !less(x, s[|s| - 1]) {
      assert (s + [x])[..|s|] == s;
    } else {
      var s', z := s[..|s| - 1], s[|s| - 1];
      InsertClass(s', x, y, less, u);
      var r := Insert(s', x, less);
      assert (r + [z])[..|r|] == r;
      assert Ordered(x, y, z, less);
      assert ClassOf(x, y, less) == [] || ClassOf(z, y, less) == [];
    }
  }

  lemma {:induction false} SortClass<T>(s: seq<T>, x: T, less: (T, T) -> bool, u: seq<T>)
    requires WeakOrder(u, less) && Within(s, u) && x in u
    ensures Class(Sort(s, less), x, less) == Class(s, x, less)
  {
    if s != [] {
      var s' := s[..|s| - 1];
      SortClass(s', x, less, u);
      SortSorted(s', less, u);
      SortElements(s', less);
      InsertClass(Sort(s', less), s[|s| - 1], x, less, u);
    }
  }

  /** The insertion sort is a stable sort. */
  lemma SortIsStable<T>(s: seq<T>, less: (T, T) -> bool)
    requires WeakOrder(s, less)
    ensures StableSort(s, Sort(s, less), less)
  {
    SortSorted(s, less, s);
    SortElements(s, less);
    forall x | x in s ensures Class(Sort(s, less), x, less) == Class(s, x, less) {
      SortClass(s, x, less, s);
    }
  }

  lemma {:induction false} ClassMember<T>(s: seq<T>, x: T, y: T, less: (T, T) -> bool)
    requires y in Class(s, x, less)
    ensures y in s
  {
    if s != [] && y in Class(s[..|s| - 1], x, less) {
      ClassMember(s[..|s| - 1], x, y, less);
    }
  }

  lemma LastInClass<T>(s: seq<T>, less: (T, T) -> bool, u: seq<T>)
    requires s != [] && WeakOrder(u, less) && Within(s, u)
    ensures Class(s, s[|s| - 1], less) == Class(s[..|s| - 1], s[|s| - 1], less) + [s[|s| - 1]]
    ensures s[|s| - 1] in u
  {
    var x := s[|s| - 1];
    assert x in u;
    assert Ordered(x, x, x, less);
  }

  /** The last element of p occurs in q, so nothing at the end of q is below it. */
  lemma LastBelowLast<T>(p: seq<T>, q: seq<T>, less: (T, T) -> bool, u: seq<T>)
    requires p != [] && q != []
    requires WeakOrder(u, less) && Within(p, u) && Sorted(q, less)
    requires forall x | x in u :: Class(p, x, less) == Class(q, x, less)
    ensures !less(q[|q| - 1], p[|p| - 1])
  {
    var a := p[|p| - 1];
    LastInClass(p, less, u);
    assert a in Class(p, a, less);
    ClassMember(q, a, a, less);
    var i :| 0 <= i < |q| && q[i] == a;
    assert Ordered(a, a, a, less);
  }

  lemma {:induction false} SameClasses<T>(p: seq<T>, q: seq<T>, less: (T, T) -> bool, u: seq<T>)
    requires WeakOrder(u, less) && Within(p, u) && Within(q, u) && Sorted(p, less) && Sorted(q, less)
    requires forall x | x in u :: Class(p, x, less) == Class(q, x, less)
    ensures p == q
  {
    if p == [] {
      if q != [] { LastInClass(q, less, u); }
    } else if q == [] {
      LastInClass(p, less, u);
    } else {
      var p', q', a, b := p[..|p| - 1], q[..|q| - 1], p[|p| - 1], q[|q| - 1];
      LastInClass(p, less, u);
      LastBelowLast(p, q, less, u);
      LastBelowLast(q, p, less, u);
      assert Class(q, a, less) == Class(q', a, less) + [b];
      assert a == b by {
        assert Class(p, a, less)[|Class(p', a, less)|] == a;
        assert Class(q, a, less)[|Class(q', a, less)|] == b;
      }
      forall x | x in u ensures Class(p', x, less) == Class(q', x, less) {
        SameInit(Class(p', x, less), Class(q', x, less), ClassOf(a, x, less));
      }
      SameClasses(p', q', less, u);
      assert p == p' + [a] && q == q' + [b];
    }
  }

  lemma SameInit<T>(p: seq<T>, q: seq<T>, r: seq<T>)
    requires p + r == q + r
    ensures p == q
  {
    assert |p + r| == |q + r|;
    assert p == (p + r)[..|p|] == (q + r)[..|q|] == q;
  }

  /** Whatever algorithm computes it, a stable sort of s by a strict weak order is Sort(s). */
  lemma StableSortIsUnique<T>(s: seq<T>, r: seq<T>, less: (T, T) -> bool)
    requires WeakOrder(s, less) && StableSort(s, r, less)
    ensures r == Sort(s, less)
  {
    SortIsStable(s, less);
    SameClasses(r, Sort(s, less), less, s);
  }

  /** Inserting into the low or the high half of a sorted sequence. */
  lemma {:induction false} InsertHigh<T>(s: seq<T>, t: seq<T>, x: T, less: (T, T) -> bool)
    requires forall y | y in s :: !less(x, y)
    ensures Insert(s + t, x, less) == s + Insert(t, x, less)
  {
    if t == [] {
      assert s + t == s;
      if s != [] { assert s[|s| - 1] in s; }
    } else if less(x, t[|t| - 1]) {
      assert (s + t)[..|s + t| - 1] == s + t[..|t| - 1];
      InsertHigh(s, t[..|t| - 1], x, less);
    }
  }

  lemma {:induction false} InsertLow<T>(s: seq<T>, t: seq<T>, x: T, less: (T, T) -> bool)
    requires forall y | y in t :: less(x, y)
    ensures Insert(s + t, x, less) == Insert(s, x, less) + t
  {
    if t == [] {
      assert s + t == s;
    } else {
      assert (s + t)[..|s + t| - 1] == s + t[..|t| - 1];
      assert t[|t| - 1] in t;
      InsertLow(s, t[..|t| - 1], x, less);
      assert t[..|t| - 1] + [t[|t| - 1]] == t;
    }
  }

  function Filter<T>(s: seq<T>, keep: T -> bool): seq<T> {
    if s == [] then []
    else Filter(s[..|s| - 1], keep) + (if keep(s[|s| - 1]) then [s[|s| - 1]] else [])
  }

  lemma {:induction false} FilterElements<T>(s: seq<T>, keep: T -> bool)
    ensures forall x :: x in Filter(s, keep) <==> x in s && keep(x)
  {
    if s != [] {
      FilterElements(s[..|s| - 1], keep);
      assert s == s[..|s| - 1] + [s[|s| - 1]];
    }
  }

  lemma SortSnoc<T>(s: seq<T>, x: T, less: (T, T) -> bool)
    ensures Sort(s + [x], less) == Insert(Sort(s, less), x, less)
  {
    assert (s + [x])[..|s|] == s;
  }

  predicate Parted<T>(x: T, y: T, low: T -> bool, less: (T, T) -> bool) {
    low(x) && !low(y) ==> less(x, y) && !less(y, x)
  }

  /** When low is a down-set of less and high the rest, sorting is sorting low and then high. */
  lemma {:induction false} SortSplit<T>(s: seq<T>, low: T -> bool, high: T -> bool, less: (T, T) -> bool)
    requires forall x, y {:trigger Parted(x, y, low, less)} | x in s && y in s :: Parted(x, y, low, less)
    requires forall x | x in s :: high(x) == !low(x)
    ensures Sort(s, less) == Sort(Filter(s, low), less) + Sort(Filter(s, high), less)
  {
    if s != [] {
      var s', x := s[..|s| - 1], s[|s| - 1];
      SortSplit(s', low, high, less);
      assert x in s;
      var p, q := Filter(s', low), Filter(s', high);
      if low(x) {
        assert Filter(s, low) == p + [x] && Filter(s, high) == q;
        forall y | y in Sort(q, less) ensures less(x, y) {
          SortElements(q, less);
          FilterElements(s', high);
          assert Parted(x, y, low, less);
        }
        InsertLow(Sort(p, less), Sort(q, less), x, less);
        SortSnoc(p, x, less);
      } else {
        assert Filter(s, high) == q + [x] && Filter(s, low) == p;
        forall y | y in Sort(p, less) ensures !less(x, y) {
          SortElements(p, less);
          FilterElements(s', low);
          assert Parted(y, x, low, less);
        }
        InsertHigh(Sort(p, less), Sort(q, less), x, less);
        SortSnoc(q, x, less);
      }
    }
  }

  lemma InsertSinks<T>(p: seq<T>, x: T, j: nat, less: (T, T) -> bool)
    requires 0 < j <= |p| && less(x, p[j - 1])
    ensures Insert(p[..j], x, less) + p[j..] == Insert(p[..j - 1], x, less) + p[j - 1..]
  {
    assert p[..j][..j - 1] == p[..j - 1];
    assert p[j - 1..] == [p[j - 1]] + p[j..];
  }

  lemma InsertEnds<T>(s: seq<T>, x: T, less: (T, T) -> bool)
    ensures s == [] || !less(x, s[|s| - 1]) ==> Insert(s, x, less) == s + [x]
  {
  }

  ghost predicate Distinct<T>(s: seq<T>) {
    forall i, j | 0 <= i < j < |s| :: s[i] != s[j]
  }

  lemma {:induction false} DistinctOnce<T>(s: seq<T>, x: T)
    requires Distinct(s)
    ensures multiset(s)[x] <= 1
  {
    if s != [] {
      var n := |s| - 1;
      assert s == s[..n] + [s[n]];
      DistinctOnce(s[..n], x);
      assert x == s[n] ==> x !in s[..n];
    }
  }

  lemma AppearsTwice<T>(s: seq<T>, i: nat, j: nat)
    requires i < j < |s| && s[i] == s[j]
    ensures multiset(s)[s[i]] >= 2
  {
    assert s == s[..j] + [s[j]] + s[j + 1..];
    assert s[i] in s[..j];
  }

  lemma SortDistinct<T>(s: seq<T>, less: (T, T) -> bool)
    requires Distinct(s)
    ensures Distinct(Sort(s, less))
  {
    hide Sort;
    var r := Sort(s, less);
    SortElements(s, less);
    forall i, j | 0 <= i < j < |r| ensures r[i] != r[j] {
      DistinctOnce(s, r[i]);
      if r[i] == r[j] { AppearsTwice(r, i, j); }
    }
  }

  /** One round of the in-place sort: a[i] sinks into the sorted prefix before it. */
  method Sink<T>(a: array<T>, i: nat, less: (T, T) -> bool)
    requires i < a.Length
    modifies a
    ensures a[..i + 1] == Insert(old(a[..i]), old(a[i]), less)
    ensures forall k | i < k < a.Length :: a[k] == old(a[k])
  {
    hide Insert;
    ghost var p := a[..i];
    var x, j := a[i], i;
    ghost var r := Insert(p, x, less);
    assert p[..i] == p;
    while j > 0 && less(x, a[j - 1])
      invariant 0 <= j <= i
      invariant forall k | 0 <= k < j :: a[k] == p[k]
      invariant forall k | j < k <= i :: a[k] == p[k - 1]
      invariant forall k | i < k < a.Length :: a[k] == old(a[k])
      invariant r == Insert(p[..j], x, less) + p[j..]
    {
      InsertSinks(p, x, j, less);
      a[j] := a[j - 1];
      j := j - 1;
    }
    a[j] := x;
    InsertEnds(p[..j], x, less);
    assert a[..i + 1] == p[..j] + [x] + p[j..];
  }

  /** The sort itself, in place. */
  method InsertionSort<T>(a: array<T>, less: (T, T) -> bool)
    modifies a
    ensures a[..] == Sort(old(a[..]), less)
  {
    ghost var s := a[..];
    var i := 0;
    while i < a.Length
      invariant 0 <= i <= a.Length
      invariant a[..i] == Sort(s[..i], less)
      invariant forall k | i <= k < a.Length :: a[k] == s[k]
    {
      Sink(a, i, less);
      SortSnoc(s[..i], s[i], less);
      i := i + 1;
      assert s[..i] == s[..i - 1] + [s[i - 1]];
    }
    assert s[..a.Length] == s && a[..a.Length] == a[..];
  }

  /** The same on a copy, as the program sorts copies of its slices. */
  method SortedCopy<T>(s: seq<T>, less: (T, T) -> bool) returns (r: seq<T>)
    ensures r == Sort(s, less)
  {
    var a := new T[|s|](i requires 0 <= i < |s| => s[i]);
    assert a[..] == s;
    InsertionSort(a, less);
    r := a[..];
  }
}
