/** The net worth report: its lines, their total, and the tree built from them. */
module Report {
  import opened Ast
  import opened Names
  import opened Sums
  import opened Sorting
  import opened Booking
  import opened NetWorthSeries
  import AccountTree
  import Prices

  /** Lines are listed by account, then commodity. */
  predicate LineLess(a: AccountTree.NetWorthLine, b: AccountTree.NetWorthLine) {
    if a.account != b.account then NameLess(a.account, b.account) else NameLess(a.commodity, b.commodity)
  }

  ghost function LineOf(l: Ledger, bal: Balances, k: Key, asOf: Date): AccountTree.NetWorthLine {
    AccountTree.NetWorthLine(
      k.account, k.commodity, BalOf(bal, k), MarketValue(l, k.commodity, BalOf(bal, k), asOf),
      Unpriced(l, k.commodity, asOf))
  }

  /** The lines show every nonzero counted balance once. */
  ghost predicate Shows(l: Ledger, bal: Balances, asOf: Date, lines: seq<AccountTree.NetWorthLine>) {
    && Distinct(lines)
    && (forall i | 0 <= i < |lines| ::
          Key(lines[i].account, lines[i].commodity) in Held(bal)
          && lines[i] == LineOf(l, bal, Key(lines[i].account, lines[i].commodity), asOf))
    && forall k | k in Held(bal) :: LineOf(l, bal, k, asOf) in lines
  }

  function KeyOf(ln: AccountTree.NetWorthLine): Key {
    Key(ln.account, ln.commodity)
  }

  /** Lines of distinct keys add up to the sum over the keys. */
  lemma {:induction false} LinesSum(lines: seq<AccountTree.NetWorthLine>, ks: set<Key>, f: Key -> real)
    requires forall i | 0 <= i < |lines| :: KeyOf(lines[i]) in ks && lines[i].value == f(KeyOf(lines[i]))
    requires forall i, j | 0 <= i < j < |lines| :: KeyOf(lines[i]) != KeyOf(lines[j])
    requires forall k | k in ks :: exists i | 0 <= i < |lines| :: KeyOf(lines[i]) == k
    ensures AccountTree.SumLines(lines) == SumOver(ks, f)
    decreases |lines|
  {
    if lines == [] {
      assert ks == {};
    } else {
      var n := |lines| - 1;
      var k, rest := KeyOf(lines[n]), lines[..n];
      SumRemove(ks, f, k);
      forall j | j in ks - {k} ensures exists i | 0 <= i < |rest| :: KeyOf(rest[i]) == j {
        var i :| 0 <= i < |lines| && KeyOf(lines[i]) == j;
        assert rest[i] == lines[i];
      }
      LinesSum(rest, ks - {k}, f);
    }
  }

  lemma ShownSum(l: Ledger, bal: Balances, asOf: Date, lines: seq<AccountTree.NetWorthLine>)
    requires Shows(l, bal, asOf, lines)
    ensures AccountTree.SumLines(lines) == Worth(l, bal, asOf)
  {
    hide MarketValue, Unpriced;
    forall i, j | 0 <= i < j < |lines| ensures KeyOf(lines[i]) != KeyOf(lines[j]) {
      assert lines[i] != lines[j];
    }
    forall k | k in Held(bal) ensures exists i | 0 <= i < |lines| :: KeyOf(lines[i]) == k {
      assert LineOf(l, bal, k, asOf) in lines;
    }
    LinesSum(lines, Held(bal), (k: Key) => MarketValue(l, k.commodity, BalOf(bal, k), asOf));
  }

  lemma CountedIsProper(a: string)
    requires IsNetWorth(a)
    ensures AccountTree.Proper(a)
  {
    assert "Assets:"[0] == 'A' && "Liabilities:"[0] == 'L';
  }

  /** The top rows of the net worth tree add up to the net worth re-booked at the report's date. */
  lemma TreeTotalIsNetWorth(l: Ledger, asOf: Date, lines: seq<AccountTree.NetWorthLine>)
    requires Shows(l, AsOf(l.dirs, asOf).bal, asOf, lines)
    ensures AccountTree.SumTop(AccountTree.NetWorthTree(lines)) == NetWorth(l, asOf)
  {
    hide AsOf, Worth, AccountTree.SumTop, AccountTree.NetWorthTree, AccountTree.SumLines, IsNetWorth, MarketValue;
    ShownSum(l, AsOf(l.dirs, asOf).bal, asOf, lines);
    forall i | 0 <= i < |lines| ensures AccountTree.Proper(lines[i].account) {
      CountedIsProper(lines[i].account);
    }
    AccountTree.NetWorthTreeTotal(lines);
  }

  // ----- the program's loops

  /** Lines and total of the balances, collected in the order the map yields them. */
  method CollectLines(l: Ledger, db: Prices.DB, bal: Balances, asOf: Date)
      returns (lines: seq<AccountTree.NetWorthLine>, total: real)
    requires db.series == l.prices
    ensures Shows(l, bal, asOf, lines) && total == Worth(l, bal, asOf)
  {
    hide MarketValue, IsNetWorth, Unpriced;
    ghost var f := (k: Key) => MarketValue(l, k.commodity, BalOf(bal, k), asOf);
    var todo := Held(bal);
    lines, total := [], 0.0;
    while todo != {}
      invariant todo <= Held(bal) && total + SumOver(todo, f) == Worth(l, bal, asOf)
      invariant Distinct(lines)
      invariant forall i | 0 <= i < |lines| ::
                  KeyOf(lines[i]) in Held(bal) - todo && lines[i] == LineOf(l, bal, KeyOf(lines[i]), asOf)
      invariant forall k | k in Held(bal) - todo :: LineOf(l, bal, k, asOf) in lines
      decreases |todo|
    {
      var k :| k in todo;
      SumRemove(todo, f, k);
      var value, unpriced := MarketConvert(l, db, k.commodity, bal[k], asOf);
      lines := lines + [AccountTree.NetWorthLine(k.account, k.commodity, bal[k], value, unpriced)];
      total := total + value;
      todo := todo - {k};
    }
  }

  lemma NamesFit(x: string, y: string, z: string)
    ensures Ordered(x, y, z, NameLess) && (x != y ==> NameLess(x, y) || NameLess(y, x))
  {
    hide NameLess;
    NamesOrdered([x, y, z]);
    NameAsymmetric(x, y);
    assert x in [x, y, z] && y in [x, y, z] && z in [x, y, z];
  }

  lemma LinesOrdered(u: seq<AccountTree.NetWorthLine>)
    ensures WeakOrder(u, LineLess)
  {
    hide NameLess;
    forall a, b, c | a in u && b in u && c in u ensures Ordered(a, b, c, LineLess) {
      NamesFit(a.account, b.account, c.account);
      NamesFit(b.account, c.account, a.account);
      NamesFit(a.commodity, b.commodity, c.commodity);
      NamesFit(b.commodity, a.commodity, c.commodity);
    }
  }

  lemma ShownSorted(l: Ledger, bal: Balances, asOf: Date, lines: seq<AccountTree.NetWorthLine>)
    requires Shows(l, bal, asOf, lines)
    ensures Shows(l, bal, asOf, Sort(lines, LineLess))
  {
    hide Sort, Held, LineOf;
    var r := Sort(lines, LineLess);
    SortElements(lines, LineLess);
    SortDistinct(lines, LineLess);
    forall i | 0 <= i < |r|
      ensures KeyOf(r[i]) in Held(bal) && r[i] == LineOf(l, bal, KeyOf(r[i]), asOf)
    {
      assert r[i] in lines;
    }
  }

  /** The report: re-books up to asOf, lists the counted balances by account and commodity, and adds up. */
  method NetWorthReport(l: Ledger, db: Prices.DB, asOf: Date)
      returns (lines: seq<AccountTree.NetWorthLine>, total: real)
    requires db.series == l.prices
    ensures Shows(l, AsOf(l.dirs, asOf).bal, asOf, lines)
    ensures forall i, j | 0 <= i < j < |lines| ::
              if lines[i].account == lines[j].account then NameLess(lines[i].commodity, lines[j].commodity)
              else NameLess(lines[i].account, lines[j].account)
    ensures forall i | 0 <= i < |lines| :: ReportsBalance(l, AsOf(l.dirs, asOf).bal, asOf, lines[i])
    ensures forall k | k in AsOf(l.dirs, asOf).bal && AsOf(l.dirs, asOf).bal[k] != 0.0 && Counted(k.account) ::
              exists i | 0 <= i < |lines| :: lines[i].account == k.account && lines[i].commodity == k.commodity
    ensures total == NetWorth(l, asOf) == AccountTree.SumLines(lines)
  {
    hide AsOf, Worth, Shows, AccountTree.SumLines, Sort;
    var bal := BalancesAsOf(l, asOf);
    lines, total := CollectLines(l, db, bal, asOf);
    ShownSorted(l, bal, asOf, lines);
    LinesOrdered(lines);
    SortSorted(lines, LineLess, lines);
    lines := SortedCopy(lines, LineLess);
    ShownSum(l, bal, asOf, lines);
    ShownInOrder(l, bal, asOf, lines);
    ShownFields(l, bal, asOf, lines);
  }

  /** The line shows the units of a nonzero balance of a counted account, and their market value. */
  ghost predicate ReportsBalance(l: Ledger, bal: Balances, asOf: Date, ln: AccountTree.NetWorthLine) {
    var k := Key(ln.account, ln.commodity);
    && Counted(ln.account) && k in bal && bal[k] != 0.0 && ln.units == bal[k]
    && ln.value == MarketValue(l, ln.commodity, ln.units, asOf) && ln.unpriced == Unpriced(l, ln.commodity, asOf)
  }

  lemma ShownFields(l: Ledger, bal: Balances, asOf: Date, lines: seq<AccountTree.NetWorthLine>)
    requires Shows(l, bal, asOf, lines)
    ensures forall i | 0 <= i < |lines| :: ReportsBalance(l, bal, asOf, lines[i])
    ensures forall k | k in bal && bal[k] != 0.0 && Counted(k.account) ::
              exists i | 0 <= i < |lines| :: lines[i].account == k.account && lines[i].commodity == k.commodity
  {
    hide MarketValue, Unpriced;
    forall k | k in bal && bal[k] != 0.0 && Counted(k.account)
      ensures exists i | 0 <= i < |lines| :: lines[i].account == k.account && lines[i].commodity == k.commodity
    {
      assert k in Held(bal);
      var i :| 0 <= i < |lines| && lines[i] == LineOf(l, bal, k, asOf);
    }
  }

  /** Lines of distinct accounts and commodities, once sorted, are in strict order. */
  lemma ShownInOrder(l: Ledger, bal: Balances, asOf: Date, lines: seq<AccountTree.NetWorthLine>)
    requires Shows(l, bal, asOf, lines) && Sorted(lines, LineLess)
    ensures forall i, j | 0 <= i < j < |lines| ::
              if lines[i].account == lines[j].account then NameLess(lines[i].commodity, lines[j].commodity)
              else NameLess(lines[i].account, lines[j].account)
  {
    hide NameLess, Held;
    forall i, j | 0 <= i < j < |lines|
      ensures if lines[i].account == lines[j].account then NameLess(lines[i].commodity, lines[j].commodity)
              else NameLess(lines[i].account, lines[j].account)
    {
      assert !LineLess(lines[j], lines[i]) && lines[i] != lines[j];
      NamesFit(lines[i].account, lines[j].account, lines[i].account);
      NamesFit(lines[i].commodity, lines[j].commodity, lines[i].commodity);
    }
  }

  /** The report's tree and its total. */
  method NetWorthTreeReport(l: Ledger, db: Prices.DB, asOf: Date)
      returns (rows: seq<AccountTree.Row>, total: real)
    requires db.series == l.prices
    ensures total == NetWorth(l, asOf) == AccountTree.SumTop(rows)
  {
    hide NetWorth, Shows, AccountTree.SumTop, AccountTree.NetWorthTree;
    var lines;
    lines, total := NetWorthReport(l, db, asOf);
    TreeTotalIsNetWorth(l, asOf, lines);
    rows := AccountTree.NetWorthTreeFromLines(lines);
  }
}
