/** The order in which directives are booked. */
module Ordering {
  import opened Ast
  import opened Sorting

  /** Rank of a directive among those of its day. */
  function DirectiveOrder(d: Directive): int {
    match d
    case Open(_, _, _, _) => -2
    case Pad(_, _, _) => -1
    case Balance(_, _, _) => 0
    case Document(_) => 2
    case Close(_, _) => 3
    case _ => 1
  }

  predicate DirectiveLess(a: Directive, b: Directive) {
    if a.meta.date != b.meta.date then a.meta.date < b.meta.date
    else if DirectiveOrder(a) != DirectiveOrder(b) then DirectiveOrder(a) < DirectiveOrder(b)
    else a.meta.line != b.meta.line && a.meta.line > 0 && b.meta.line > 0 && a.meta.line < b.meta.line
  }

  predicate SameRank(a: Directive, b: Directive) {
    a.meta.date == b.meta.date && DirectiveOrder(a) == DirectiveOrder(b)
  }

  /** No directive without a source line stands with two different known lines of its day and rank. */
  ghost predicate LinesComparable(ds: seq<Directive>) {
    forall a, b, c {:trigger LinesAgree(a, b, c)} | a in ds && b in ds && c in ds :: LinesAgree(a, b, c)
  }

  predicate LinesAgree(a: Directive, b: Directive, c: Directive) {
    SameRank(a, b) && SameRank(b, c) && b.meta.line == 0 && a.meta.line > 0 && c.meta.line > 0 ==>
      a.meta.line == c.meta.line
  }

  /** The comparator is a strict weak order exactly when the lines are comparable. */
  lemma OrderIsWeak(ds: seq<Directive>)
    ensures WeakOrder(ds, DirectiveLess) <==> LinesComparable(ds)
  {
    if LinesComparable(ds) {
      forall a, b, c | a in ds && b in ds && c in ds ensures Ordered(a, b, c, DirectiveLess) {
        assert LinesAgree(a, b, c) && LinesAgree(c, b, a);
      }
    }
    if WeakOrder(ds, DirectiveLess) {
      forall a, b, c | a in ds && b in ds && c in ds ensures LinesAgree(a, b, c) {
        assert Ordered(a, b, c, DirectiveLess) && Ordered(c, b, a, DirectiveLess);
      }
    }
  }

  /** A directive without a line between two that have one breaks the order. */
  lemma MixedLinesAreNotOrdered(m: Meta)
    requires m.line == 0
    ensures var a, b, c := Other(m.(line := 1)), Other(m), Other(m.(line := 2));
            DirectiveLess(a, c) && !DirectiveLess(a, b) && !DirectiveLess(b, c)
  {
  }

  function SortDirectives(ds: seq<Directive>): seq<Directive> {
    Sort(ds, DirectiveLess)
  }

  ghost predicate InOrder(ds: seq<Directive>) {
    Sorted(ds, DirectiveLess)
  }

  lemma SortedInOrder(ds: seq<Directive>)
    requires LinesComparable(ds)
    ensures InOrder(SortDirectives(ds))
  {
    OrderIsWeak(ds);
    SortSorted(ds, DirectiveLess, ds);
  }

  method SortedDirectives(dirs: seq<Directive>) returns (r: seq<Directive>)
    ensures r == SortDirectives(dirs)
    ensures LinesComparable(dirs) ==> StableSort(dirs, r, DirectiveLess)
  {
    r := SortedCopy(dirs, DirectiveLess);
    if LinesComparable(dirs) {
      OrderIsWeak(dirs);
      SortIsStable(dirs, DirectiveLess);
    }
  }
}
