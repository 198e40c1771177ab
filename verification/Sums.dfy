/** Sums over finite sets, independent of the order in which a loop visits them. */
module Sums {

  ghost function SumOver<K(!new)>(ks: set<K>, f: K -> real): real {
    if ks == {} then 0.0
    else
      var k :| k in ks;
      f(k) + SumOver(ks - {k}, f)
  }

  lemma {:induction false} SumRemove<K(!new)>(ks: set<K>, f: K -> real, k: K)
    requires k in ks
    ensures SumOver(ks, f) == f(k) + SumOver(ks - {k}, f)
  {
    var j :| j in ks && SumOver(ks, f) == f(j) + SumOver(ks - {j}, f);
    if j != k {
      SumRemove(ks - {j}, f, k);
      SumRemove(ks - {k}, f, j);
      assert ks - {j} - {k} == ks - {k} - {j};
    }
  }

  lemma {:induction false} SumSame<K(!new)>(ks: set<K>, f: K -> real, g: K -> real)
    requires forall k | k in ks :: f(k) == g(k)
    ensures SumOver(ks, f) == SumOver(ks, g)
  {
    if ks != {} {
      var k :| k in ks;
      SumRemove(ks, f, k);
      SumRemove(ks, g, k);
      SumSame(ks - {k}, f, g);
    }
  }

  lemma {:induction false} SumZero<K(!new)>(ks: set<K>, f: K -> real)
    requires forall k | k in ks :: f(k) == 0.0
    ensures SumOver(ks, f) == 0.0
  {
    if ks != {} {
      var k :| k in ks;
      SumRemove(ks, f, k);
      SumZero(ks - {k}, f);
    }
  }

  lemma {:induction false} SumUnion<K(!new)>(p: set<K>, q: set<K>, f: K -> real)
    requires p !! q
    ensures SumOver(p + q, f) == SumOver(p, f) + SumOver(q, f)
  {
    if p == {} {
      assert p + q == q;
    } else {
      var k :| k in p;
      SumRemove(p, f, k);
      SumRemove(p + q, f, k);
      assert p + q - {k} == (p - {k}) + q;
      SumUnion(p - {k}, q, f);
    }
  }

  /** Elements that contribute nothing may be left out. */
  lemma SumDrop<K(!new)>(p: set<K>, q: set<K>, f: K -> real)
    requires p <= q && forall k | k in q && k !in p :: f(k) == 0.0
    ensures SumOver(p, f) == SumOver(q, f)
  {
    assert q == p + (q - p);
    SumUnion(p, q - p, f);
    SumZero(q - p, f);
  }

  /** Changing one value changes the sum by the difference. */
  lemma SumChange<K(!new)>(ks: set<K>, f: K -> real, g: K -> real, k: K)
    requires k in ks && forall j | j in ks && j != k :: f(j) == g(j)
    ensures SumOver(ks, g) == SumOver(ks, f) - f(k) + g(k)
  {
    SumRemove(ks, f, k);
    SumRemove(ks, g, k);
    SumSame(ks - {k}, f, g);
  }

  /** The keys that g sends to l. */
  function Fibre<K, L(==)>(ks: set<K>, g: K -> L, l: L): set<K> {
    set k | k in ks && g(k) == l
  }

  /** A sum taken group by group. */
  lemma {:induction false} SumFibres<K(!new), L(!new)>(ks: set<K>, g: K -> L, ls: set<L>, f: K -> real, h: L -> real)
    requires forall k | k in ks :: g(k) in ls
    requires forall l | l in ls :: h(l) == SumOver(Fibre(ks, g, l), f)
    ensures SumOver(ks, f) == SumOver(ls, h)
    decreases ls
  {
    if ls == {} {
      assert ks == {};
    } else {
      var l :| l in ls;
      var here := Fibre(ks, g, l);
      var rest := ks - here;
      assert ks == here + rest;
      SumUnion(here, rest, f);
      SumRemove(ls, h, l);
      forall m | m in ls - {l} ensures h(m) == SumOver(Fibre(rest, g, m), f) {
        assert Fibre(rest, g, m) == Fibre(ks, g, m);
      }
      SumFibres(rest, g, ls - {l}, f, h);
    }
  }
}
