/** Which transactions are refused, and when a lot is sold short. */
module Refusals {
  import opened Ast
  import opened Booking
  import opened InventorySafety
  import opened Journal
  import opened Gains
  import opened Purchases

  /** The posting states a unit cost for the units it adds. */
  ghost predicate StatesSome(p: Posting, units: real) {
    exists n, c :: StatesUnitCost(p, units, n, c)
  }

  /** Units are added, by braces or on a lot, and neither the posting nor the lot says at what cost. */
  ghost predicate LacksCost(inv: Inventory, p: Posting, k: Key, units: real) {
    && units > 0.0 && !StatesSome(p, units)
    && (p.cost.Some? || (k in inv && inv[k].units != 0.0))
    && !(k in inv && inv[k].units > 0.0 && inv[k].costComm != "")
  }

  /** Units of a lot are taken out and the braces state a unit cost off the lot's average. */
  predicate WrongCost(cfg: Config, inv: Inventory, p: Posting, k: Key, units: real) {
    && units < 0.0 && k in inv && inv[k].units != 0.0 && Braced(p)
    && Abs(p.cost.value.number.value - inv[k].totalCost / inv[k].units) > Tol(cfg, k.commodity)
  }

  /** The posting has no number, no commodity, no cost where it needs one, or the wrong one. */
  ghost predicate Refused(cfg: Config, inv: Inventory, p: Posting) {
    && p.units.Some?
    && (|| p.units.value.number.None? || Blank(p.units.value.commodity)
        || LacksCost(inv, p, Key(p.account, p.units.value.commodity), p.units.value.number.value)
        || WrongCost(cfg, inv, p, Key(p.account, p.units.value.commodity), p.units.value.number.value))
  }

  lemma PostingRefusedExactly(cfg: Config, inv: Inventory, p: Posting)
    ensures PlanLeg(cfg, inv, p).Bad? <==> Refused(cfg, inv, p)
    ensures PlanLeg(cfg, inv, p).Residual? <==> p.units.None?
  {
    hide Blank, Abs, StatesUnitCost, CostAt;
    if p.units.Some? && p.units.value.number.Some? && !Blank(p.units.value.commodity) {
      var units, k := p.units.value.number.value, Key(p.account, p.units.value.commodity);
      if units > 0.0 {
        AddedRefused(cfg, inv, p, k, units);
      }
    }
  }

  lemma AddedRefused(cfg: Config, inv: Inventory, p: Posting, k: Key, units: real)
    requires Adds(p, k, units)
    ensures PlanLeg(cfg, inv, p).Bad? <==> LacksCost(inv, p, k, units)
  {
    hide Blank, PlanLeg, StatesUnitCost;
    if n, c :| StatesUnitCost(p, units, n, c) {
      StatedCostIsBooked(cfg, inv, p, k, units, n, c);
    } else {
      var avg := if k in inv && inv[k].units != 0.0 then inv[k].totalCost / inv[k].units else 0.0;
      UnstatedCostIsBooked(cfg, inv, p, k, units, avg);
    }
  }

  ghost predicate SomeRefused(cfg: Config, inv: Inventory, ps: seq<Posting>) {
    exists i | 0 <= i < |ps| :: Refused(cfg, inv, ps[i])
  }

  predicate SomeEmpty(ps: seq<Posting>) {
    exists i | 0 <= i < |ps| :: ps[i].units.None?
  }

  predicate TwoEmpty(ps: seq<Posting>) {
    exists i, j | 0 <= i < j < |ps| :: ps[i].units.None? && ps[j].units.None?
  }

  lemma {:induction false} PlanAbortsExactly(cfg: Config, s: State, date: Date, ps: seq<Posting>)
    ensures var plan := PlanAll(cfg, s, date, ps);
            && (plan.Aborted? <==> SomeRefused(cfg, s.inv, ps) || TwoEmpty(ps))
            && (plan.Planned? ==> (plan.residual.Some? <==> SomeEmpty(ps)))
  {
    hide Refused, CheckAccount, PlanLeg;
    if ps != [] {
      var n, p := |ps| - 1, ps[|ps| - 1];
      PlanAbortsExactly(cfg, s, date, ps[..n]);
      PostingRefusedExactly(cfg, s.inv, p);
      RefusedSnoc(cfg, s.inv, ps);
    }
  }

  lemma RefusedSnoc(cfg: Config, inv: Inventory, ps: seq<Posting>)
    requires ps != []
    ensures var n := |ps| - 1;
            && (SomeRefused(cfg, inv, ps) <==> SomeRefused(cfg, inv, ps[..n]) || Refused(cfg, inv, ps[n]))
            && (SomeEmpty(ps) <==> SomeEmpty(ps[..n]) || ps[n].units.None?)
            && (TwoEmpty(ps) <==> TwoEmpty(ps[..n]) || (SomeEmpty(ps[..n]) && ps[n].units.None?))
  {
    hide Refused;
    var n := |ps| - 1;
    assert forall i | 0 <= i < n :: ps[..n][i] == ps[i];
  }

  /**
    A transaction is refused before anything is weighed exactly when one of its postings is, or when two
    are empty; then it changes nothing but the diagnostics.
  */
  lemma RefusedExactly(cfg: Config, s: State, t: Directive)
    requires t.Transaction?
    ensures Prepare(cfg, s, t).None? <==> SomeRefused(cfg, s.inv, t.postings) || TwoEmpty(t.postings)
    ensures Prepare(cfg, s, t).None? ==>
              BookTxn(cfg, s, t) == s.(diags := BookTxn(cfg, s, t).diags) && s.diags <= BookTxn(cfg, s, t).diags
  {
    hide PlanAll, SomeRefused;
    PlanAbortsExactly(cfg, s, t.meta.date, t.postings);
    PrepareSome(cfg, s, t);
  }

  // ----- selling short

  /** More is taken out of the lot than it holds and is given. */
  predicate EndsShort(inv: Inventory, ops: seq<InvOp>, k: Key) {
    UnitsOf(inv, k) + Net(ops, k, true) - Net(ops, k, false) < 0.0
  }

  lemma {:induction false} NetPositive(ops: seq<InvOp>, k: Key, buy: bool)
    requires Positive(ops)
    ensures Net(ops, k, buy) >= 0.0
    ensures Net(ops, k, buy) > 0.0 ==> exists i | 0 <= i < |ops| :: ops[i].key == k && ops[i].buy == buy
  {
    if ops != [] {
      NetPositive(ops[..|ops| - 1], k, buy);
      if Net(ops[..|ops| - 1], k, buy) > 0.0 {
        var i :| 0 <= i < |ops| - 1 && ops[..|ops| - 1][i].key == k && ops[..|ops| - 1][i].buy == buy;
        assert ops[i].key == k;
      } else if Net(ops, k, buy) > 0.0 {
        assert ops[|ops| - 1].key == k;
      }
    }
  }

  /** Moves stop at the oversell check exactly when some lot would end below zero; ending at zero is fine. */
  lemma OversellExactly(inv: Inventory, ops: seq<InvOp>)
    requires Safe(inv) && Positive(ops)
    ensures Move(inv, ops).stop == Some(Oversell) <==> exists k :: EndsShort(inv, ops, k)
    ensures Move(inv, ops).stop == Some(Oversell) ==> Move(inv, ops).inv == inv
  {
    hide BuyPass, SellPass, Net;
    PassStops(inv, ops);
    PassStops(BuyPass(inv, ops).inv, ops);
    if k :| EndsShort(inv, ops, k) {
      NetPositive(ops, k, true);
      NetPositive(ops, k, false);
      var i :| 0 <= i < |ops| && ops[i].key == k && !ops[i].buy;
      assert LotOversold(inv, ops, ops[i].key);
    }
    if Oversold(inv, ops) {
      var i :| 0 <= i < |ops| && !ops[i].buy && LotOversold(inv, ops, ops[i].key);
      assert EndsShort(inv, ops, ops[i].key);
    }
  }

  /** Units sold at a cost in braces from a lot that holds none: the move takes out nothing at no cost. */
  lemma BracedSalePlanned(cfg: Config, inv: Inventory, p: Posting, k: Key, u: real, n: real, c: string,
                          demand: set<string>)
    requires p.account == k.account && p.units == Some(RawAmount(Some(-u), k.commodity)) && !Blank(k.commodity)
    requires u > 0.0 && p.cost == Some(CostSpec(Some(n), c, false)) && !HasPosition(inv, k)
    ensures var leg := PlanLeg(cfg, inv, p);
            && leg.Good? && leg.op == Some(InvOp(false, k, u, 0.0, ""))
            && LegWeight(p, leg.filled, demand) == [Weight(c, -CostAt(u, n))]
  {
    hide Blank, Abs;
    assert Key(p.account, k.commodity) == k;
    Products(u, n);
    var bare := Filled(p.account, Some(Amount(-u, k.commodity)), None, p.closing);
    assert LotAvg(inv, k) == 0.0 && LotComm(inv, k) == "";
    assert PlanLeg(cfg, inv, p) == PlanSell(cfg, inv, p, k, u, bare);
    var leg := PlanLeg(cfg, inv, p);
    assert leg == Good(bare.(costBasis := Some(Amount(-CostAt(u, 0.0), ""))),
                       Some(InvOp(false, k, u, CostAt(u, 0.0), "")));
    assert PostingWeight(p, Amount(-u, k.commodity), leg.filled.costBasis) == Weight(c, (-u) * n);
  }

  lemma Products(u: real, n: real)
    ensures CostAt(u, 0.0) == 0.0 && (-u) * n == -CostAt(u, n)
  {
  }

  /**
    A short sale: units that the lot does not hold, at a cost in braces, and cash, in either order. It is not
    booked, and reported as an oversell; an imbalance is reported besides exactly when the cash differs from
    units times the cost by more than the tolerance.
  */
  lemma ShortSaleRefused(cfg: Config, s: State, t: Directive, sale: nat, money: nat, k: Key, u: real, n: real,
                         cash: real, c: string)
    requires t.Transaction? && |t.postings| == 2 && Pair(sale, money) && !HasPosition(s.inv, k) && Safe(s.inv)
    requires var p := t.postings[sale];
             && p.account == k.account && p.units == Some(RawAmount(Some(-u), k.commodity)) && !Blank(k.commodity)
             && u > 0.0 && p.cost == Some(CostSpec(Some(n), c, false)) && Receives(s.inv, t.postings[money], cash, c)
    ensures Prepare(cfg, s, t).Some?
    ensures ImbalanceReported(Prepare(cfg, s, t).value.diags) <==> Abs(cash - CostAt(u, n)) > Tol(cfg, c)
    ensures var s' := BookTxn(cfg, s, t);
            s' == s.(diags := s.diags + Prepare(cfg, s, t).value.diags + multiset{Oversell})
  {
    hide PlanLeg, PlanAll, Prepare, Blank, CostAt, Tol, FaceDemand, Receives, Safe;
    var p, q := t.postings[sale], t.postings[money];
    BracedSalePlanned(cfg, s.inv, p, k, u, n, c, {});
    CashPlanned(cfg, s.inv, q, cash, c);
    var demand := FaceDemand(p, PlanLeg(cfg, s.inv, p).filled) + FaceDemand(q, CashLeg(q, cash, c));
    BracedSalePlanned(cfg, s.inv, p, k, u, n, c, demand);
    BareLeg(s.inv, q, cash, c, demand);
    TwoBooked(cfg, s, t, sale, money, c, -CostAt(u, n), cash);
    PrepareSome(cfg, s, t);
    OneShort(s.inv, InvOp(false, k, u, 0.0, ""));
  }

  lemma OneShort(inv: Inventory, op: InvOp)
    requires !op.buy && op.units > UnitsOf(inv, op.key) && op.units > 0.0
    ensures Move(inv, [op]) == Pass(inv, Some(Oversell))
  {
    assert [op][..0] == [];
    assert Net([op], op.key, false) == Net([], op.key, false) + op.units;
    assert Net([op], op.key, true) == Net([], op.key, true);
    assert LotOversold(inv, [op], [op][0].key);
  }
}
