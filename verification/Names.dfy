/** Byte order on names, and the sorted listing of a set of names. */
module Names {
  import opened Sorting

  /** The program compares UTF-8 bytes, which is the order of code points. */
  predicate NameLess(a: string, b: string) {
    if b == [] then false
    else if a == [] then true
    else if a[0] != b[0] then a[0] < b[0]
    else NameLess(a[1..], b[1..])
  }

  lemma {:induction false} NameAsymmetric(a: string, b: string)
    ensures !(NameLess(a, b) && NameLess(b, a))
    ensures a != b ==> NameLess(a, b) || NameLess(b, a)
  {
    if a != [] && b != [] && a[0] == b[0] {
      NameAsymmetric(a[1..], b[1..]);
      assert a == [a[0]] + a[1..] && b == [b[0]] + b[1..];
    }
  }

  lemma {:induction false} NameTransitive(a: string, b: string, c: string)
    requires NameLess(a, b) && NameLess(b, c)
    ensures NameLess(a, c)
  {
    if a != [] && a[0] == b[0] == c[0] {
      NameTransitive(a[1..], b[1..], c[1..]);
    }
  }

  lemma NamesOrdered(u: seq<string>)
    ensures WeakOrder(u, NameLess)
  {
    forall a, b, c | a in u && b in u && c in u ensures Ordered(a, b, c, NameLess) {
      NameAsymmetric(a, b);
      NameAsymmetric(b, c);
      if NameLess(a, c) && !NameLess(a, b) && !NameLess(b, c) {
        if a != b && b != c { NameTransitive(b, a, c); NameTransitive(c, b, c); }
      }
    }
  }

  ghost predicate Ascending(s: seq<string>) {
    forall i, j | 0 <= i < j < |s| :: NameLess(s[i], s[j])
  }

  ghost predicate Least(m: string, s: set<string>) {
    m in s && forall x | x in s :: x == m || NameLess(m, x)
  }

  lemma {:induction false} LeastExists(s: set<string>) returns (m: string)
    requires s != {}
    ensures Least(m, s)
  {
    var n :| n in s;
    var rest := s - {n};
    if rest == {} {
      m := n;
      forall x | x in s ensures x == m { assert x !in rest; }
    } else {
      var k := LeastExists(rest);
      NameAsymmetric(n, k);
      m := if NameLess(k, n) then k else n;
      forall x | x in s ensures x == m || NameLess(m, x) {
        if x in rest && x != k && m == n { NameTransitive(n, k, x); }
      }
    }
  }

  lemma LeastUnique(s: set<string>, m: string, k: string)
    requires Least(m, s) && Least(k, s)
    ensures m == k
  {
    NameAsymmetric(m, k);
  }

  /** The least name of a nonempty set. */
  ghost function Min(s: set<string>): (m: string)
    requires s != {}
    ensures Least(m, s)
  {
    assert exists m :: Least(m, s) by { var m := LeastExists(s); }
    var m :| Least(m, s);
    m
  }

  /** The names of s in ascending order. */
  ghost function Listing(s: set<string>): (r: seq<string>)
    decreases |s|
  {
    if s == {} then [] else [Min(s)] + Listing(s - {Min(s)})
  }

  lemma {:induction false} ListingLists(s: set<string>)
    ensures Ascending(Listing(s)) && forall x :: x in Listing(s) <==> x in s
    decreases |s|
  {
    if s != {} {
      var m := Min(s);
      var t := Listing(s - {m});
      ListingLists(s - {m});
      forall j | 0 <= j < |t| ensures NameLess(m, t[j]) {
        assert t[j] in t && t[j] in s - {m};
      }
      forall x ensures x in [m] + t <==> x in s {
        assert x in t <==> x in s - {m};
      }
    }
  }

  lemma {:induction false} ListingUnique(r: seq<string>, s: set<string>)
    requires Ascending(r) && forall x :: x in r <==> x in s
    ensures r == Listing(s)
    decreases |r|
  {
    assert s != {} ==> Min(s) in r;
    if r != [] {
      assert r[0] in s;
      var m, t := Min(s), r[1..];
      forall x | x in s ensures x == r[0] || NameLess(r[0], x) {
        var i :| 0 <= i < |r| && r[i] == x;
      }
      LeastUnique(s, r[0], m);
      NameAsymmetric(m, m);
      forall i | 0 <= i < |t| ensures t[i] != m && t[i] in s {
        assert NameLess(r[0], r[i + 1]) && r[i + 1] in r;
      }
      assert r == [m] + t;
      forall x ensures x in t <==> x in s - {m} {
        assert x in r <==> x == m || x in t;
      }
      ListingUnique(t, s - {m});
    }
  }

  /** Sorting distinct names lists them. */
  lemma SortedListing(xs: seq<string>, s: set<string>)
    requires Distinct(xs) && forall x :: x in xs <==> x in s
    ensures Sort(xs, NameLess) == Listing(s)
  {
    hide Sort, NameLess;
    var r := Sort(xs, NameLess);
    NamesOrdered(xs);
    SortSorted(xs, NameLess, xs);
    SortElements(xs, NameLess);
    SortDistinct(xs, NameLess);
    forall i, j | 0 <= i < j < |r| ensures NameLess(r[i], r[j]) { NameAsymmetric(r[i], r[j]); }
    ListingUnique(r, s);
  }

  /** Listing a set of names, as the program does: collect in any order, then sort. */
  method List(s: set<string>) returns (r: seq<string>)
    ensures r == Listing(s)
  {
    var xs, todo := [], s;
    while todo != {}
      invariant todo <= s && forall x :: x in xs <==> x in s - todo
      invariant Distinct(xs)
      decreases |todo|
    {
      var x :| x in todo;
      assert x !in xs;
      xs := xs + [x];
      todo := todo - {x};
    }
    r := SortedCopy(xs, NameLess);
    SortedListing(xs, s);
  }

  /** Last bars: two names joined to barless names by a bar are joined alike only when both agree. */
  lemma JoinedAlike(a: string, c: string, b: string, d: string)
    requires '|' !in c && '|' !in d && a + "|" + c == b + "|" + d
    ensures a == b && c == d
  {
    var k, l := a + "|" + c, b + "|" + d;
    assert k[|a|] == '|' && l[|b|] == '|';
    forall i | |a| < i < |k| ensures k[i] != '|' { assert k[i] == c[i - |a| - 1] && c[i - |a| - 1] in c; }
    forall i | |b| < i < |l| ensures l[i] != '|' { assert l[i] == d[i - |b| - 1] && d[i - |b| - 1] in d; }
    assert |a| == |b|;
    assert a == k[..|a|] && b == l[..|b|] && c == k[|a| + 1..] && d == l[|b| + 1..];
  }
}
