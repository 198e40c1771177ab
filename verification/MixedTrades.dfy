/** Transactions that both buy into and sell from one lot, and buys that fail late. */
module MixedTrades {
  import opened Ast
  import opened Names
  import opened Booking
  import opened Journal
  import opened InventorySafety
  import opened AverageCost
  import opened Gains

  // ----- what a mixed transaction does to a lot's cost

  function CostOf(inv: Inventory, k: Key): real {
    if k in inv then inv[k].totalCost else 0.0
  }

  /** What the buys put into a lot. */
  function BoughtCost(ops: seq<InvOp>, k: Key): real {
    if ops == [] then 0.0
    else
      var op := ops[|ops| - 1];
      BoughtCost(ops[..|ops| - 1], k) + if op.key == k && op.buy then op.total else 0.0
  }

  lemma {:induction false} BuyingCosts(inv: Inventory, ops: seq<InvOp>, k: Key)
    requires BuyPass(inv, ops).stop.None?
    ensures CostOf(BuyPass(inv, ops).inv, k) == CostOf(inv, k) + BoughtCost(ops, k)
  {
    hide BuyMismatch;
    if ops != [] { BuyingCosts(inv, ops[..|ops| - 1], k); }
  }

  /** While units are left in a lot, no sell has reset its cost. */
  lemma {:induction false} SellingCosts(inv: Inventory, ops: seq<InvOp>, k: Key)
    requires Positive(ops) && Covered(inv, ops) && Safe(inv)
    ensures var r := SellPass(inv, ops).inv;
            UnitsOf(r, k) != 0.0 ==> CostOf(r, k) == CostOf(inv, k) - SoldCost(ops, k)
  {
    if ops != [] {
      var ops', op := ops[..|ops| - 1], ops[|ops| - 1];
      CoveredPrefix(inv, ops);
      SellingCosts(inv, ops', k);
      Selling(inv, ops', k);
      Selling(inv, ops, k);
      SellOneCosts(inv, ops, k);
    }
  }

  lemma SellOneCosts(inv: Inventory, ops: seq<InvOp>, k: Key)
    requires ops != [] && Positive(ops) && SellPass(inv, ops).stop.None?
    requires var before := SellPass(inv, ops[..|ops| - 1]);
             before.stop.None? && Safe(before.inv)
             && (UnitsOf(before.inv, k) != 0.0 ==>
                   CostOf(before.inv, k) == CostOf(inv, k) - SoldCost(ops[..|ops| - 1], k))
    requires UnitsOf(SellPass(inv, ops).inv, k) >= 0.0
    ensures var r := SellPass(inv, ops).inv;
            UnitsOf(r, k) != 0.0 ==> CostOf(r, k) == CostOf(inv, k) - SoldCost(ops, k)
  {
  }

  /**
    The exact effect of a transaction on a lot, mixed or not: as long as units are left, its cost
    gains what the buys cost and loses what is sold at the average before the transaction.
  */
  lemma MixedCost(inv: Inventory, ops: seq<InvOp>, k: Key)
    requires Safe(inv) && Positive(ops) && Priced(inv, ops) && Move(inv, ops).stop.None?
    ensures var r := Move(inv, ops).inv;
            && UnitsOf(r, k) == UnitsOf(inv, k) + Net(ops, k, true) - Net(ops, k, false)
            && (UnitsOf(r, k) != 0.0 ==>
                  CostOf(r, k) == CostOf(inv, k) + BoughtCost(ops, k) - CostAt(Net(ops, k, false), LotAvg(inv, k)))
  {
    hide BuyPass, SellPass, Net, SoldCost, BoughtCost, Oversold;
    MoveSucceeds(inv, ops);
    var bought := BuyPass(inv, ops).inv;
    Buying(inv, ops, k);
    Selling(bought, ops, k);
    BuyingCosts(inv, ops, k);
    SellingCosts(bought, ops, k);
    SoldAtOnePrice(ops, k, LotAvg(inv, k));
  }

  lemma AverageKept(units: real, avg: real, cost: real, buys: real, bought: real, sells: real, cost': real)
    requires cost == units * avg && cost' == cost + bought - sells * avg && units + buys - sells != 0.0
    ensures cost' / (units + buys - sells) == avg <==> bought == buys * avg
  {
    var left := units + buys - sells;
    assert left * avg == units * avg + buys * avg - sells * avg;
    if cost' / left == avg {
      Quotients(cost', left);
    }
    if bought == buys * avg {
      Quotient(cost', left, avg);
    }
  }

  /**
    Over a run: a booked transaction leaves a lot that still holds units a negative cost exactly
    when what was in it and what was bought cost less than what was sold, at the average before;
    and it keeps the average exactly when it buys at it.
  */
  lemma MixedTransactions(cfg: Config, ds: seq<Directive>, k: Key)
    requires ds != [] && ds[|ds| - 1].Transaction?
    requires Run(cfg, EMPTY, ds).txns != Run(cfg, EMPTY, ds[..|ds| - 1]).txns
    ensures var s, s' := Run(cfg, EMPTY, ds[..|ds| - 1]), Run(cfg, EMPTY, ds);
            && Prepare(cfg, s, ds[|ds| - 1]).Some?
            && var ops, avg := Prepare(cfg, s, ds[|ds| - 1]).value.ops, LotAvg(s.inv, k);
               (UnitsOf(s'.inv, k) != 0.0 ==>
                  && (CostOf(s'.inv, k) < 0.0 <==>
                        CostOf(s.inv, k) + BoughtCost(ops, k) < CostAt(Net(ops, k, false), avg))
                  && (HasPosition(s.inv, k) ==>
                        (LotAvg(s'.inv, k) == avg <==> BoughtCost(ops, k) == CostAt(Net(ops, k, true), avg))))
  {
    hide PlanAll, Prepare, Move, BoughtCost, Net, Safe, Priced, Positive;
    var s, t := Run(cfg, EMPTY, ds[..|ds| - 1]), ds[|ds| - 1];
    InventoryIsSafe(cfg, ds[..|ds| - 1]);
    PreparedPositive(cfg, s, t);
    PreparedPriced(cfg, s, t);
    PrepareSome(cfg, s, t);
    var ops := Prepare(cfg, s, t).value.ops;
    MixedCost(s.inv, ops, k);
    var r := Move(s.inv, ops).inv;
    if UnitsOf(r, k) != 0.0 && HasPosition(s.inv, k) {
      MixedAverage(s.inv, r, k, Net(ops, k, true), BoughtCost(ops, k), Net(ops, k, false));
    }
  }

  lemma MixedAverage(inv: Inventory, r: Inventory, k: Key, buys: real, bought: real, sells: real)
    requires HasPosition(inv, k) && UnitsOf(r, k) != 0.0 && UnitsOf(r, k) == UnitsOf(inv, k) + buys - sells
    requires CostOf(r, k) == CostOf(inv, k) + bought - CostAt(sells, LotAvg(inv, k))
    ensures LotAvg(r, k) == LotAvg(inv, k) <==> bought == CostAt(buys, LotAvg(inv, k))
  {
    var avg := LotAvg(inv, k);
    Quotients(inv[k].totalCost, inv[k].units);
    AverageKept(inv[k].units, avg, inv[k].totalCost, buys, bought, sells, r[k].totalCost);
  }

  // ----- two transactions that go wrong

  function Buys(account: string, units: real, comm: string, cost: real, c: string): Posting {
    Posting(account, Some(RawAmount(Some(units), comm)), Some(CostSpec(Some(cost), c, false)), None, false)
  }

  function BoughtLeg(account: string, units: real, comm: string, total: real, c: string): Filled {
    Filled(account, Some(Amount(units, comm)), Some(Amount(total, c)), false)
  }

  const ABSORBS := Posting("B", None, None, None, false)
  const OPEN_LEG := Filled("B", None, None, false)

  lemma BoughtPlanned(cfg: Config, inv: Inventory, account: string, units: real, comm: string, cost: real, c: string)
    requires units > 0.0 && !Blank(comm)
    ensures PlanLeg(cfg, inv, Buys(account, units, comm, cost, c)) ==
            Good(BoughtLeg(account, units, comm, CostAt(units, cost), c),
                 Some(InvOp(true, Key(account, comm), units, CostAt(units, cost), c)))
  {
    hide Blank, CostAt;
  }

  lemma LettersNotBlank()
    ensures !Blank("X") && !Blank("Y") && !Blank("USD")
  {
    assert !IsSpace("X"[0]) && !IsSpace("Y"[0]) && !IsSpace("USD"[0]);
  }

  /** A first directive: one X is bought in USD and paid for. */
  function FirstBuy(meta: Meta, cost: real): Directive {
    Transaction(meta, "*", [
      Buys("A", 1.0, "X", cost, "USD"),
      Posting("B", Some(RawAmount(Some(-cost), "USD")), None, None, false)])
  }

  /** The state after the first directive of a stream: one lot. */
  lemma OneBuy(meta: Meta, cost: real)
    ensures var s := Run(FRESH, EMPTY, [FirstBuy(meta, cost)]);
            s.inv == map[Key("A", "X") := Position(1.0, cost, "USD")] && |s.txns| == 1
  {
    hide PlanAll, PlanLeg, PostAll;
    var t := FirstBuy(meta, cost);
    LettersNotBlank();
    BoughtPlanned(FRESH, map[], "A", 1.0, "X", cost, "USD");
    CashPlanned(FRESH, map[], t.postings[1], -cost, "USD");
    TwoPlanned(FRESH, EMPTY, meta.date, t.postings);
    ReportedIsUnabsorbed(FRESH, EMPTY, t);
    assert [t][..0] == [];
    assert Run(FRESH, EMPTY, [t]) == Apply(FRESH, Run(FRESH, EMPTY, []), t);
    BuyIntoNothing(InvOp(true, Key("A", "X"), 1.0, cost, "USD"));
  }

  lemma BuyIntoNothing(op: InvOp)
    requires op.buy
    ensures Move(map[], [op]) == Pass(map[op.key := Position(op.units, op.total, op.costComm)], None)
  {
    assert [op][..0] == [];
    var none: Inventory := map[];
    assert BuyPass(none, [op]) == Pass(Buy(none, op), None);
    assert SellPass(Buy(none, op), [op]) == Pass(Buy(none, op), None);
  }

  lemma RunTwo(cfg: Config, x: Directive, y: Directive)
    ensures Run(cfg, EMPTY, [x, y]) == Apply(cfg, Run(cfg, EMPTY, [x]), y)
  {
    hide Apply;
    assert [x, y][..1] == [x];
  }

  // Buying 2 X at 0.1 and selling 2 X from a lot of one X that cost 10.

  const ONE_X: Inventory := map[Key("A", "X") := Position(1.0, 10.0, "USD")]
  const SELL_TWO := Posting("A", Some(RawAmount(Some(-2.0), "X")), None, None, false)
  const SOLD_TWO := Filled("A", Some(Amount(-2.0, "X")), Some(Amount(-20.0, "USD")), false)
  const MIXED := [Buys("A", 2.0, "X", 0.1, "USD"), SELL_TWO, ABSORBS]
  const MIXED_LEGS := [BoughtLeg("A", 2.0, "X", 0.2, "USD"), SOLD_TWO, OPEN_LEG]
  const MIXED_OPS := [InvOp(true, Key("A", "X"), 2.0, 0.2, "USD"), InvOp(false, Key("A", "X"), 2.0, 20.0, "USD")]

  lemma MixedPlanned(s: State, date: Date)
    requires s.inv == ONE_X
    ensures var plan := PlanAll(FRESH, s, date, MIXED);
            plan.Planned? && plan.filled == MIXED_LEGS && plan.ops == MIXED_OPS && plan.residual == Some(2)
  {
    LettersNotBlank();
    BoughtPlanned(FRESH, s.inv, "A", 2.0, "X", 0.1, "USD");
    assert CostAt(2.0, 0.1) == 0.2;
    SellTwoPlanned();
    hide PlanLeg, PlanAll;
    ThreePlanned(FRESH, s, date, MIXED, MIXED_LEGS, 2);
    EmptyPlanned(FRESH, s.inv, ABSORBS);
  }

  lemma SellTwoPlanned()
    ensures PlanLeg(FRESH, ONE_X, SELL_TWO) == Good(SOLD_TWO, Some(InvOp(false, Key("A", "X"), 2.0, 20.0, "USD")))
  {
    LettersNotBlank();
    hide Blank;
    assert ONE_X[Key("A", "X")].Avg() == 10.0;
  }

  lemma MixedFilled()
    ensures FillResidual(FRESH, MIXED_LEGS, 2, TxnWeights(MIXED, MIXED_LEGS))
         == MIXED_LEGS[2 := Filled("B", Some(Amount(19.8, "USD")), None, false)]
  {
    hide FaceDemands, Weights, Listing, ResidualCommodities, FillResidual, SumFor, Tol;
    ThreeDemands(MIXED, MIXED_LEGS);
    var demand := FaceDemands(MIXED, MIXED_LEGS);
    ThreeWeights(MIXED, MIXED_LEGS, demand);
    assert "X" !in demand;
    assert TxnWeights(MIXED, MIXED_LEGS) == [Weight("USD", 0.2), Weight("USD", -20.0)];
    TwoLeftOver(FRESH, "USD", 0.2, -20.0);
    TwoWeights("USD", 0.2, -20.0, "USD");
    assert Tol(FRESH, "USD") == DEFAULT_TOLERANCE by { FreshTol("USD"); }
    ThreeFilled(FRESH, MIXED_LEGS, 2, TxnWeights(MIXED, MIXED_LEGS), "USD");
  }

  lemma FreshTol(c: string)
    ensures Tol(FRESH, c) == DEFAULT_TOLERANCE
  {
  }

  /** Moves planned already, and a leg on an account without a lot, need no further moves. */
  lemma {:induction false} NoMoreOps(inv: Inventory, filled: seq<Filled>, ops: seq<InvOp>)
    requires |filled| == 3 && |ops| == 2 && filled[0].units.Some? && filled[1].units.Some? && filled[2].units.Some?
    requires OpMatches(ops[0], Key(filled[0].account, filled[0].units.value.commodity), filled[0].units.value.number)
    requires OpMatches(ops[1], Key(filled[1].account, filled[1].units.value.commodity), filled[1].units.value.number)
    requires !HasPosition(inv, Key(filled[2].account, filled[2].units.value.commodity))
    ensures ResidualOps(inv, filled, ops) == ops
  {
    hide OpMatches, LotAvg, LotComm, CostAt;
    var two, one := filled[..2], [filled[0]];
    assert two[..1] == one && one[..0] == [];
    assert ResidualOps(inv, one, ops) ==
           ResidualOps(inv, [], ops) + ResidualOp(inv, filled[0], ResidualOps(inv, [], ops));
    assert ResidualOps(inv, one, ops) == ops;
    assert ResidualOps(inv, two, ops) == ResidualOps(inv, two[..1], ops) + ResidualOp(inv, filled[1], ops);
    assert ResidualOps(inv, filled, ops) == ResidualOps(inv, two, ops) + ResidualOp(inv, filled[2], ops);
  }

  lemma MixedBooked(s: State, meta: Meta)
    requires s.inv == ONE_X
    ensures BookTxn(FRESH, s, Transaction(meta, "*", MIXED)).inv == map[Key("A", "X") := Position(1.0, -9.8, "USD")]
    ensures |BookTxn(FRESH, s, Transaction(meta, "*", MIXED)).txns| == |s.txns| + 1
  {
    hide PlanAll, FillResidual, TxnWeights, ResidualOps, Move, PostAll;
    MixedPlanned(s, meta.date);
    MixedFilled();
    NoMoreOps(s.inv, MIXED_LEGS[2 := Filled("B", Some(Amount(19.8, "USD")), None, false)], MIXED_OPS);
    MixedMoveGoesNegative();
  }

  /** A lot of one X at 10; then selling 2 X and buying 2 X at 0.1 leaves one at a cost of -9.8. */
  lemma MixedGoesNegative(first: Meta, second: Meta)
    ensures var s := Run(FRESH, EMPTY, [FirstBuy(first, 10.0), Transaction(second, "*", MIXED)]);
            s.inv == map[Key("A", "X") := Position(1.0, -9.8, "USD")] && |s.txns| == 2
  {
    hide Run, BookTxn;
    OneBuy(first, 10.0);
    RunTwo(FRESH, FirstBuy(first, 10.0), Transaction(second, "*", MIXED));
    MixedBooked(Run(FRESH, EMPTY, [FirstBuy(first, 10.0)]), second);
  }

  // Buying Y at a cost in EUR, then X in EUR into a lot of X that cost USD.

  const COSTED_X: Inventory := map[Key("A", "X") := Position(1.0, 1.0, "USD")]
  const LATE := [Buys("B", 1.0, "Y", 1.0, "EUR"), Buys("A", 1.0, "X", 1.0, "EUR"), ABSORBS]
  const LATE_LEGS := [BoughtLeg("B", 1.0, "Y", 1.0, "EUR"), BoughtLeg("A", 1.0, "X", 1.0, "EUR"), OPEN_LEG]
  const LATE_OPS := [InvOp(true, Key("B", "Y"), 1.0, 1.0, "EUR"), InvOp(true, Key("A", "X"), 1.0, 1.0, "EUR")]

  lemma LatePlanned(s: State, date: Date)
    requires s.inv == COSTED_X
    ensures var plan := PlanAll(FRESH, s, date, LATE);
            plan.Planned? && plan.filled == LATE_LEGS && plan.ops == LATE_OPS && plan.residual == Some(2)
  {
    LettersNotBlank();
    BoughtPlanned(FRESH, s.inv, "B", 1.0, "Y", 1.0, "EUR");
    BoughtPlanned(FRESH, s.inv, "A", 1.0, "X", 1.0, "EUR");
    assert CostAt(1.0, 1.0) == 1.0;
    hide PlanLeg, PlanAll;
    ThreePlanned(FRESH, s, date, LATE, LATE_LEGS, 2);
    EmptyPlanned(FRESH, s.inv, ABSORBS);
  }

  lemma LateFilled()
    ensures FillResidual(FRESH, LATE_LEGS, 2, TxnWeights(LATE, LATE_LEGS))
         == LATE_LEGS[2 := Filled("B", Some(Amount(-2.0, "EUR")), None, false)]
  {
    hide FaceDemands, Weights, Listing, ResidualCommodities, FillResidual, SumFor, Tol;
    ThreeWeights(LATE, LATE_LEGS, FaceDemands(LATE, LATE_LEGS));
    assert TxnWeights(LATE, LATE_LEGS) == [Weight("EUR", 1.0), Weight("EUR", 1.0)];
    TwoLeftOver(FRESH, "EUR", 1.0, 1.0);
    TwoWeights("EUR", 1.0, 1.0, "EUR");
    FreshTol("EUR");
    ThreeFilled(FRESH, LATE_LEGS, 2, TxnWeights(LATE, LATE_LEGS), "EUR");
  }

  lemma LateBooked(s: State, meta: Meta)
    requires s.inv == COSTED_X
    ensures var s' := BookTxn(FRESH, s, Transaction(meta, "*", LATE));
            && s'.txns == s.txns && s'.bal == s.bal
            && s'.inv == s.inv[Key("B", "Y") := Position(1.0, 1.0, "EUR")]
            && TxnLateMismatch(FRESH, s, Transaction(meta, "*", LATE))
  {
    hide PlanAll, FillResidual, TxnWeights, ResidualOps, Move, PostAll, LateMismatch;
    LatePlanned(s, meta.date);
    LateFilled();
    NoMoreOps(s.inv, LATE_LEGS[2 := Filled("B", Some(Amount(-2.0, "EUR")), None, false)], LATE_OPS);
    LateMoveLeavesBuy();
  }

  /** A lot of X costed in USD; then buying Y and X in EUR is not booked, and yet leaves the Y. */
  lemma LateMismatchLeavesBuy(first: Meta, second: Meta)
    ensures var s := Run(FRESH, EMPTY, [FirstBuy(first, 1.0)]);
            var s' := Run(FRESH, EMPTY, [FirstBuy(first, 1.0), Transaction(second, "*", LATE)]);
            && s'.txns == s.txns && s'.bal == s.bal
            && s'.inv == s.inv[Key("B", "Y") := Position(1.0, 1.0, "EUR")]
            && TxnLateMismatch(FRESH, s, Transaction(second, "*", LATE))
  {
    hide Run, BookTxn, TxnLateMismatch;
    OneBuy(first, 1.0);
    RunTwo(FRESH, FirstBuy(first, 1.0), Transaction(second, "*", LATE));
    LateBooked(Run(FRESH, EMPTY, [FirstBuy(first, 1.0)]), second);
  }
}
