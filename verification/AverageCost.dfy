/** Average cost over whole runs. */
module AverageCost {
  import opened Ast
  import opened Booking
  import opened InventorySafety
  import opened Purchases

  // ----- sells are planned at the average before the transaction

  predicate AtCost(op: InvOp, unitCost: real) {
    op.total == op.units * unitCost
  }

  ghost predicate Priced(inv: Inventory, ops: seq<InvOp>) {
    forall i | 0 <= i < |ops| && !ops[i].buy :: AtCost(ops[i], LotAvg(inv, ops[i].key))
  }

  lemma LegPriced(cfg: Config, inv: Inventory, p: Posting)
    ensures var leg := PlanLeg(cfg, inv, p);
            leg.Good? && leg.op.Some? && !leg.op.value.buy ==> AtCost(leg.op.value, LotAvg(inv, leg.op.value.key))
  {
  }

  lemma NextPriced(cfg: Config, s: State, date: Date, p: Posting, plan: Plan)
    requires plan.Planned? ==> Priced(s.inv, plan.ops)
    ensures var next := PlanNext(cfg, s, date, p, plan); next.Planned? ==> Priced(s.inv, next.ops)
  {
    LegPriced(cfg, s.inv, p);
  }

  lemma {:induction false} PlannedPriced(cfg: Config, s: State, date: Date, ps: seq<Posting>)
    ensures var plan := PlanAll(cfg, s, date, ps); plan.Planned? ==> Priced(s.inv, plan.ops)
  {
    if ps != [] {
      PlannedPriced(cfg, s, date, ps[..|ps| - 1]);
      NextPriced(cfg, s, date, ps[|ps| - 1], PlanAll(cfg, s, date, ps[..|ps| - 1]));
    }
  }

  lemma ResidualOpPriced(inv: Inventory, fp: Filled, ops: seq<InvOp>)
    ensures Priced(inv, ResidualOp(inv, fp, ops))
  {
  }

  lemma {:induction false} ResidualPriced(inv: Inventory, filled: seq<Filled>, ops: seq<InvOp>)
    requires Priced(inv, ops)
    ensures Priced(inv, ResidualOps(inv, filled, ops))
  {
    if filled != [] {
      ResidualPriced(inv, filled[..|filled| - 1], ops);
      ResidualOpPriced(inv, filled[|filled| - 1], ResidualOps(inv, filled[..|filled| - 1], ops));
    }
  }

  lemma PreparedPriced(cfg: Config, s: State, t: Directive)
    requires t.Transaction?
    ensures Prepare(cfg, s, t).Some? ==> Priced(s.inv, Prepare(cfg, s, t).value.ops)
  {
    PlannedPriced(cfg, s, t.meta.date, t.postings);
    PlanLength(cfg, s, t.meta.date, t.postings);
    var plan := PlanAll(cfg, s, t.meta.date, t.postings);
    if plan.Planned? && plan.residual.Some? {
      ResidualPriced(s.inv, FillResidual(cfg, plan.filled, plan.residual.value, TxnWeights(t.postings,
          plan.filled)), plan.ops);
    }
  }

  // ----- one-way transactions

  /** The moves do not both increase and reduce the lot. */
  predicate OneWay(ops: seq<InvOp>, k: Key) {
    Net(ops, k, true) == 0.0 || Net(ops, k, false) == 0.0
  }

  lemma {:induction false} BuyPassFrame(inv: Inventory, ops: seq<InvOp>, k: Key)
    requires Positive(ops) && Net(ops, k, true) == 0.0
    ensures var r := BuyPass(inv, ops).inv; (k in r <==> k in inv) && (k in inv ==> r[k] == inv[k])
  {
    if ops != [] {
      NetCovers(ops, k, true, |ops| - 1);
      BuyPassFrame(inv, ops[..|ops| - 1], k);
    }
  }

  lemma {:induction false} SellPassFrame(inv: Inventory, ops: seq<InvOp>, k: Key)
    requires Positive(ops) && Net(ops, k, false) == 0.0
    ensures var r := SellPass(inv, ops).inv; (k in r <==> k in inv) && (k in inv ==> r[k] == inv[k])
  {
    if ops != [] {
      NetCovers(ops, k, false, |ops| - 1);
      SellPassFrame(inv, ops[..|ops| - 1], k);
    }
  }

  /** What a sell pass takes out of a lot it sells at one unit cost, before any reset to zero. */
  function SoldCost(ops: seq<InvOp>, k: Key): real {
    if ops == [] then 0.0
    else
      var op := ops[|ops| - 1];
      SoldCost(ops[..|ops| - 1], k) + (if op.key == k && !op.buy then op.total else 0.0)
  }

  predicate CostIs(pos: Position, unitCost: real) {
    pos.totalCost == pos.units * unitCost
  }

  ghost predicate SoldAt(ops: seq<InvOp>, k: Key, unitCost: real) {
    forall i | 0 <= i < |ops| && !ops[i].buy && ops[i].key == k :: AtCost(ops[i], unitCost)
  }

  lemma {:induction false} SoldAtOnePrice(ops: seq<InvOp>, k: Key, avg: real)
    requires SoldAt(ops, k, avg)
    ensures SoldCost(ops, k) == Net(ops, k, false) * avg
  {
    if ops != [] { SoldAtOnePrice(ops[..|ops| - 1], k, avg); }
  }

  lemma SellStep(inv: Inventory, op: InvOp, avg: real)
    requires op.key in inv && CostIs(inv[op.key], avg) && AtCost(op, avg)
    ensures var p := Sell(inv, op)[op.key]; CostIs(p, avg) && p.costComm == inv[op.key].costComm
  {
  }

  /** A sell pass at one unit cost keeps a lot priced at that unit cost. */
  lemma {:induction false} SellingKeepsCost(inv: Inventory, ops: seq<InvOp>, k: Key, avg: real)
    requires Positive(ops) && Covered(inv, ops) && Safe(inv) && k in inv && CostIs(inv[k], avg) && SoldAt(ops, k, avg)
    ensures var r := SellPass(inv, ops).inv;
            k in r && CostIs(r[k], avg) && r[k].costComm == inv[k].costComm
  {
    if ops != [] {
      var ops', op := ops[..|ops| - 1], ops[|ops| - 1];
      CoveredPrefix(inv, ops);
      SellingKeepsCost(inv, ops', k, avg);
      if !op.buy && op.key == k { SellStep(SellPass(inv, ops').inv, op, avg); }
    }
  }

  lemma CoveredPrefix(inv: Inventory, ops: seq<InvOp>)
    requires Positive(ops) && Covered(inv, ops) && ops != []
    ensures Covered(inv, ops[..|ops| - 1])
  {
    var ops' := ops[..|ops| - 1];
    forall i | 0 <= i < |ops'| && !ops'[i].buy ensures Net(ops', ops'[i].key, false) <= UnitsOf(inv, ops'[i].key) {
      NetCovers(ops, ops[i].key, false, |ops'|);
    }
  }

  lemma Reduced(inv: Inventory, ops: seq<InvOp>, k: Key, avg: real)
    requires Safe(inv) && Positive(ops) && k in inv && CostIs(inv[k], avg) && SoldAt(ops, k, avg)
    requires Net(ops, k, true) == 0.0 && Move(inv, ops).stop.None?
    ensures var r := Move(inv, ops).inv;
            && k in r && r[k].units == inv[k].units - Net(ops, k, false) && r[k].costComm == inv[k].costComm
            && CostIs(r[k], avg)
  {
    var bought := BuyPass(inv, ops).inv;
    MoveSucceeds(inv, ops);
    BuyPassFrame(inv, ops, k);
    SellingKeepsCost(bought, ops, k, avg);
    Selling(bought, ops, k);
  }

  lemma MoveSucceeds(inv: Inventory, ops: seq<InvOp>)
    requires Safe(inv) && Positive(ops) && Move(inv, ops).stop.None?
    ensures !Oversold(inv, ops) && BuyPass(inv, ops).stop.None?
          && Move(inv, ops) == SellPass(BuyPass(inv, ops).inv, ops)
    ensures Safe(BuyPass(inv, ops).inv) && Covered(BuyPass(inv, ops).inv, ops)
  {
    SellsNeverFail(inv, ops);
  }

  lemma PricedAt(inv: Inventory, ops: seq<InvOp>, k: Key)
    requires Priced(inv, ops) && HasPosition(inv, k)
    ensures CostIs(inv[k], LotAvg(inv, k)) && SoldAt(ops, k, LotAvg(inv, k))
  {
    Quotients(inv[k].totalCost, inv[k].units);
  }

  lemma Quotients(t: real, u: real)
    requires u != 0.0
    ensures t == u * (t / u)
  {
  }

  lemma AvgIs(pos: Position, avg: real)
    requires pos.units != 0.0 && CostIs(pos, avg)
    ensures pos.Avg() == avg
  {
    Quotient(pos.totalCost, pos.units, avg);
  }

  lemma LastUnitCost(pos: Position, ops: seq<InvOp>, k: Key, avg: real)
    requires CostIs(pos, avg) && SoldAt(ops, k, avg) && pos.units == Net(ops, k, false)
    ensures pos.totalCost - SoldCost(ops, k) == 0.0
  {
    SoldAtOnePrice(ops, k, avg);
  }

  /**
    A reduction keeps the average: when the moves of a transaction only reduce a lot, what is left
    of it has the same average and cost commodity, and selling its last unit takes out exactly
    the cost that was in it.
  */
  lemma ReductionKeepsAverage(inv: Inventory, ops: seq<InvOp>, k: Key)
    requires Safe(inv) && Positive(ops) && Priced(inv, ops) && HasPosition(inv, k)
    requires Net(ops, k, true) == 0.0 && Move(inv, ops).stop.None?
    ensures var r := Move(inv, ops).inv;
            && k in r && r[k].units == inv[k].units - Net(ops, k, false) && r[k].costComm == inv[k].costComm
            && (r[k].units != 0.0 ==> r[k].Avg() == inv[k].Avg())
            && (r[k].units == 0.0 ==> inv[k].totalCost - SoldCost(ops, k) == 0.0)
  {
    var avg := LotAvg(inv, k);
    PricedAt(inv, ops, k);
    Reduced(inv, ops, k, avg);
    var r := Move(inv, ops).inv;
    if r[k].units != 0.0 { AvgIs(r[k], avg); } else { LastUnitCost(inv[k], ops, k, avg); }
  }

  lemma Quotient(t: real, u: real, a: real)
    requires u != 0.0 && t == u * a
    ensures t / u == a
  {
  }

  // ----- bounds over a run

  /** The posting adds to the lot and states the unit cost, in braces or as a price. */
  ghost predicate States(p: Posting, k: Key, cost: real) {
    && p.units.Some? && p.units.value.number.Some? && Adds(p, k, p.units.value.number.value)
    && exists c :: StatesUnitCost(p, p.units.value.number.value, cost, c)
  }

  ghost predicate SomeStates(ps: seq<Posting>, k: Key, cost: real) {
    exists i | 0 <= i < |ps| :: States(ps[i], k, cost)
  }

  /** The buy joins the lot at the average before the transaction. */
  predicate Joins(inv: Inventory, op: InvOp) {
    HasPosition(inv, op.key) && AtCost(op, LotAvg(inv, op.key))
  }

  ghost predicate Accounted(inv: Inventory, ps: seq<Posting>, op: InvOp) {
    op.buy && op.units > 0.0 ==> SomeStates(ps, op.key, op.total / op.units) || Joins(inv, op)
  }

  /** Every buy is at a unit cost that a posting states, or joins the lot at its average. */
  ghost predicate AllAccounted(inv: Inventory, ps: seq<Posting>, ops: seq<InvOp>) {
    forall i | 0 <= i < |ops| :: Accounted(inv, ps, ops[i])
  }

  lemma LegAccounted(cfg: Config, inv: Inventory, p: Posting)
    ensures var leg := PlanLeg(cfg, inv, p);
            leg.Good? && leg.op.Some? && leg.op.value.buy && leg.op.value.units > 0.0 ==>
              var op := leg.op.value;
              States(p, op.key, op.total / op.units) || Joins(inv, op)
  {
    var leg := PlanLeg(cfg, inv, p);
    if leg.Good? && leg.op.Some? && leg.op.value.buy {
      var units := p.units.value.number.value;
      var own := ResolveIncreaseCost(p, units);
      if own.Some? {
        Quotient(CostAt(units, own.value.number), units, own.value.number);
        if units > 0.0 { OwnCostIsStated(p, units); }
      }
    }
  }

  lemma NextAccounted(cfg: Config, s: State, date: Date, ps: seq<Posting>, plan: Plan)
    requires ps != [] && (plan.Planned? ==> AllAccounted(s.inv, ps[..|ps| - 1], plan.ops))
    ensures var next := PlanNext(cfg, s, date, ps[|ps| - 1], plan);
            next.Planned? ==> AllAccounted(s.inv, ps, next.ops)
  {
    hide PlanLeg, States, Joins, CheckAccount;
    LegAccounted(cfg, s.inv, ps[|ps| - 1]);
    if plan.Planned? {
      forall i | 0 <= i < |plan.ops| ensures Accounted(s.inv, ps, plan.ops[i]) {
        MorePostings(s.inv, ps, plan.ops[i]);
      }
    }
  }

  lemma MorePostings(inv: Inventory, ps: seq<Posting>, op: InvOp)
    requires ps != [] && Accounted(inv, ps[..|ps| - 1], op)
    ensures Accounted(inv, ps, op)
  {
    hide States, Joins;
    if op.buy && op.units > 0.0 && SomeStates(ps[..|ps| - 1], op.key, op.total / op.units) {
      var i :| 0 <= i < |ps| - 1 && States(ps[..|ps| - 1][i], op.key, op.total / op.units);
      assert States(ps[i], op.key, op.total / op.units);
    }
  }

  lemma {:induction false} PlannedAccounted(cfg: Config, s: State, date: Date, ps: seq<Posting>)
    ensures var plan := PlanAll(cfg, s, date, ps); plan.Planned? ==> AllAccounted(s.inv, ps, plan.ops)
  {
    hide AllAccounted, PlanNext;
    if ps == [] {
      NoneAccounted(s.inv, ps);
    } else {
      PlannedAccounted(cfg, s, date, ps[..|ps| - 1]);
      NextAccounted(cfg, s, date, ps, PlanAll(cfg, s, date, ps[..|ps| - 1]));
    }
  }

  lemma NoneAccounted(inv: Inventory, ps: seq<Posting>)
    ensures AllAccounted(inv, ps, [])
  {
  }

  lemma {:induction false} ResidualAccounted(inv: Inventory, ps: seq<Posting>, filled: seq<Filled>, ops: seq<InvOp>)
    requires AllAccounted(inv, ps, ops)
    ensures AllAccounted(inv, ps, ResidualOps(inv, filled, ops))
  {
    hide SomeStates;
    if filled != [] { ResidualAccounted(inv, ps, filled[..|filled| - 1], ops); }
  }

  lemma PreparedAccounted(cfg: Config, s: State, t: Directive)
    requires t.Transaction?
    ensures Prepare(cfg, s, t).Some? ==> AllAccounted(s.inv, t.postings, Prepare(cfg, s, t).value.ops)
  {
    hide AllAccounted, PlanAll;
    PlannedAccounted(cfg, s, t.meta.date, t.postings);
    PlanLength(cfg, s, t.meta.date, t.postings);
    var plan := PlanAll(cfg, s, t.meta.date, t.postings);
    if plan.Planned? && plan.residual.Some? {
      ResidualAccounted(s.inv, t.postings, FillResidual(cfg, plan.filled, plan.residual.value,
          TxnWeights(t.postings, plan.filled)), plan.ops);
    }
  }

  /** The unit costs that postings state of the buys on a lot that a buy pass carries out. */
  ghost function CostsStated(inv: Inventory, ps: seq<Posting>, ops: seq<InvOp>, k: Key): seq<real>
    requires Positive(ops)
  {
    if ops == [] then []
    else
      var ops', op := ops[..|ops| - 1], ops[|ops| - 1];
      var r := BuyPass(inv, ops');
      CostsStated(inv, ps, ops', k) +
      (if r.stop.None? && op.buy && !BuyMismatch(r.inv, op) && op.key == k && SomeStates(ps, k, op.total / op.units)
       then [op.total / op.units] else [])
  }

  lemma {:induction false} CostsAreStated(inv: Inventory, ps: seq<Posting>, ops: seq<InvOp>, k: Key)
    requires Positive(ops)
    ensures forall c | c in CostsStated(inv, ps, ops, k) :: SomeStates(ps, k, c)
  {
    hide SomeStates;
    if ops != [] { CostsAreStated(inv, ps, ops[..|ops| - 1], k); }
  }

  /** The average lies between two of the given unit costs. */
  ghost predicate Between(h: seq<real>, pos: Position) {
    exists lo, hi | lo in h && hi in h :: lo * pos.units <= pos.totalCost <= hi * pos.units
  }

  ghost predicate Bounded(h: seq<real>, inv: Inventory, k: Key) {
    HasPosition(inv, k) ==> Between(h, inv[k])
  }

  lemma Scale(a: real, b: real, u: real)
    requires a <= b && u >= 0.0
    ensures a * u <= b * u
  {
  }

  lemma BuyAbove(a: real, c: real, u: real, n: real, t: real)
    requires u > 0.0 && n > 0.0 && a * u <= t
    ensures var m := if a <= c then a else c; m * (u + n) <= t + c * n
  {
    var m := if a <= c then a else c;
    Scale(m, a, u);
    Scale(m, c, n);
    assert m * (u + n) == m * u + m * n;
  }

  lemma BuyBelow(a: real, c: real, u: real, n: real, t: real)
    requires u > 0.0 && n > 0.0 && t <= a * u
    ensures var m := if a >= c then a else c; t + c * n <= m * (u + n)
  {
    var m := if a >= c then a else c;
    Scale(a, m, u);
    Scale(c, m, n);
    assert m * (u + n) == m * u + m * n;
  }

  lemma BuyWithin(h: seq<real>, pos: Position, units: real, total: real, comm: string)
    requires units > 0.0 && pos.units > 0.0 && Between(h, pos)
    ensures Between(h + [total / units], Position(pos.units + units, pos.totalCost + total, comm))
  {
    hide Between;
    var c := total / units;
    Quotients(total, units);
    var lo, hi := BetweenWitness(h, pos);
    BuyAbove(lo, c, pos.units, units, pos.totalCost);
    BuyBelow(hi, c, pos.units, units, pos.totalCost);
    var lo', hi' := if lo <= c then lo else c, if hi >= c then hi else c;
    assert lo' in h + [c] && hi' in h + [c];
    BetweenBy(h + [c], Position(pos.units + units, pos.totalCost + total, comm), lo', hi');
  }

  lemma BetweenWitness(h: seq<real>, pos: Position) returns (lo: real, hi: real)
    requires Between(h, pos)
    ensures lo in h && hi in h && lo * pos.units <= pos.totalCost <= hi * pos.units
  {
    lo, hi :| lo in h && hi in h && lo * pos.units <= pos.totalCost <= hi * pos.units;
  }

  lemma BetweenBy(h: seq<real>, pos: Position, lo: real, hi: real)
    requires lo in h && hi in h && lo * pos.units <= pos.totalCost <= hi * pos.units
    ensures Between(h, pos)
  {
  }

  lemma FirstBuyWithin(h: seq<real>, units: real, total: real, comm: string)
    requires units > 0.0
    ensures Between(h + [total / units], Position(units, total, comm))
  {
    var c := total / units;
    assert c * units == total;
    BetweenBy(h + [c], Position(units, total, comm), c, c);
  }

  /** Joining at a unit cost between two earlier ones. */
  lemma JoinWithin(h: seq<real>, pos: Position, units: real, total: real, comm: string, a: real, b: real)
    requires units > 0.0 && pos.units > 0.0 && Between(h, pos)
    requires a in h && b in h && a * units <= total <= b * units
    ensures Between(h, Position(pos.units + units, pos.totalCost + total, comm))
  {
    hide Between;
    var lo, hi := BetweenWitness(h, pos);
    var lo', hi' := if lo <= a then lo else a, if hi >= b then hi else b;
    Scale(lo', lo, pos.units);
    Scale(lo', a, units);
    Scale(hi, hi', pos.units);
    Scale(b, hi', units);
    Spread(lo', pos.units, units);
    Spread(hi', pos.units, units);
    BetweenBy(h, Position(pos.units + units, pos.totalCost + total, comm), lo', hi');
  }

  lemma Spread(a: real, u: real, n: real)
    ensures a * (u + n) == a * u + a * n
  {
  }

  /** A cost at the average of a bounded lot lies between two of its unit costs. */
  lemma AverageWithin(h: seq<real>, pos: Position, units: real, total: real) returns (a: real, b: real)
    requires Between(h, pos) && pos.units > 0.0 && units > 0.0 && total == units * pos.Avg()
    ensures a in h && b in h && a * units <= total <= b * units
  {
    a, b := BetweenWitness(h, pos);
    var avg := pos.Avg();
    Quotients(pos.totalCost, pos.units);
    CancelScale(a, avg, pos.units);
    CancelScale(avg, b, pos.units);
    Scale(a, avg, units);
    Scale(avg, b, units);
  }

  lemma LongerBetween(h: seq<real>, g: seq<real>, pos: Position)
    requires Between(h, pos)
    ensures Between(h + g, pos)
  {
    var lo, hi := BetweenWitness(h, pos);
    BetweenBy(h + g, pos, lo, hi);
  }

  lemma StatedBuyBounded(h: seq<real>, inv: Inventory, op: InvOp)
    requires Safe(inv) && op.units > 0.0 && Bounded(h, inv, op.key)
    ensures Bounded(h + [op.total / op.units], Buy(inv, op), op.key)
  {
    hide Between;
    if HasPosition(inv, op.key) {
      BuyWithin(h, inv[op.key], op.units, op.total, op.costComm);
    } else {
      FirstBuyWithin(h, op.units, op.total, op.costComm);
    }
  }

  lemma JoinedBuyBounded(h: seq<real>, g: seq<real>, first: Inventory, inv: Inventory, op: InvOp)
    requires Safe(first) && Safe(inv) && op.units > 0.0 && Joins(first, op)
    requires Bounded(h, first, op.key) && Bounded(h + g, inv, op.key)
    requires UnitsOf(inv, op.key) >= UnitsOf(first, op.key)
    ensures Bounded(h + g, Buy(inv, op), op.key)
  {
    hide Between;
    LongerBetween(h, g, first[op.key]);
    var a, b := AverageWithin(h + g, first[op.key], op.units, op.total);
    JoinWithin(h + g, inv[op.key], op.units, op.total, op.costComm, a, b);
  }

  lemma {:induction false} BuyPassBounded(h: seq<real>, inv: Inventory, ps: seq<Posting>, ops: seq<InvOp>, k: Key)
    requires Positive(ops) && Safe(inv) && Bounded(h, inv, k) && AllAccounted(inv, ps, ops)
    ensures Bounded(h + CostsStated(inv, ps, ops, k), BuyPass(inv, ops).inv, k)
  {
    hide SomeStates, Bounded, BuyMismatch, Safe, Joins, Buy;
    if ops == [] {
      assert h + [] == h;
    } else {
      var ops', op := ops[..|ops| - 1], ops[|ops| - 1];
      BuyPassBounded(h, inv, ps, ops', k);
      BuyingIsSafe(inv, ops');
      var r, g := BuyPass(inv, ops'), CostsStated(inv, ps, ops', k);
      assert g + [] == g;
      if r.stop.None? && op.buy && !BuyMismatch(r.inv, op) {
        if op.key != k {
          OtherBuyBounded(h + g, r.inv, op, k);
        } else if SomeStates(ps, k, op.total / op.units) {
          assert h + CostsStated(inv, ps, ops, k) == h + g + [op.total / op.units];
          StatedBuyBounded(h + g, r.inv, op);
        } else {
          assert Accounted(inv, ps, op);
          Buying(inv, ops', k);
          JoinedBuyBounded(h, g, inv, r.inv, op);
        }
      }
    }
  }

  lemma OtherBuyBounded(h: seq<real>, inv: Inventory, op: InvOp, k: Key)
    requires Bounded(h, inv, k) && op.key != k
    ensures Bounded(h, Buy(inv, op), k)
  {
    hide Between;
  }

  lemma SameAverageBounded(h: seq<real>, p: Position, q: Position)
    requires p.units > 0.0 && q.units > 0.0 && p.Avg() == q.Avg() && Between(h, p)
    ensures Between(h, q)
  {
    Quotients(q.totalCost, q.units);
    var a, b := AverageWithin(h, p, q.units, q.totalCost);
    BetweenBy(h, q, a, b);
  }

  lemma CancelScale(a: real, b: real, u: real)
    requires u > 0.0 && a * u <= b * u
    ensures a <= b
  {
    if a > b { Scale(b, a, u); StrictScale(b, a, u); }
  }

  lemma StrictScale(a: real, b: real, u: real)
    requires a < b && u > 0.0
    ensures a * u < b * u
  {
  }

  lemma MoveBounded(h: seq<real>, inv: Inventory, ps: seq<Posting>, ops: seq<InvOp>, k: Key)
    requires Safe(inv) && Positive(ops) && Priced(inv, ops) && OneWay(ops, k) && Bounded(h, inv, k)
    requires !Oversold(inv, ops) && AllAccounted(inv, ps, ops)
    ensures Bounded(h + CostsStated(inv, ps, ops, k), Move(inv, ops).inv, k)
  {
    hide AllAccounted;
    BuyPassBounded(h, inv, ps, ops, k);
    if BuyPass(inv, ops).stop.None? {
      SellsNeverFail(inv, ops);
      if Net(ops, k, false) == 0.0 {
        SellPassFrame(BuyPass(inv, ops).inv, ops, k);
      } else if HasPosition(inv, k) {
        ReductionKeepsAverage(inv, ops, k);
        NothingBought(inv, ps, ops, k);
        assert h + CostsStated(inv, ps, ops, k) == h;
        var r := Move(inv, ops).inv;
        if HasPosition(r, k) { SameAverageBounded(h, inv[k], r[k]); }
      } else {
        Buying(inv, ops, k);
        Selling(BuyPass(inv, ops).inv, ops, k);
        NetCovers(ops, k, false, 0);
      }
    }
  }

  lemma {:induction false} NothingBought(inv: Inventory, ps: seq<Posting>, ops: seq<InvOp>, k: Key)
    requires Positive(ops) && Net(ops, k, true) == 0.0
    ensures CostsStated(inv, ps, ops, k) == []
  {
    if ops != [] {
      NetCovers(ops, k, true, |ops| - 1);
      NothingBought(inv, ps, ops[..|ops| - 1], k);
    }
  }

  /** The unit costs stated for what one directive buys into a lot. */
  ghost function StepStated(cfg: Config, s: State, d: Directive, k: Key): seq<real> {
    PreparedIfTxn(cfg, s, d);
    if !d.Transaction? || Prepare(cfg, s, d).None? || Oversold(s.inv, Prepare(cfg, s, d).value.ops) then []
    else CostsStated(s.inv, d.postings, Prepare(cfg, s, d).value.ops, k)
  }

  lemma PreparedIfTxn(cfg: Config, s: State, d: Directive)
    ensures d.Transaction? && Prepare(cfg, s, d).Some? ==> Positive(Prepare(cfg, s, d).value.ops)
  {
    if d.Transaction? { PreparedPositive(cfg, s, d); }
  }

  /** The unit costs stated for what was bought into a lot since it was last empty. */
  ghost function Stated(cfg: Config, ds: seq<Directive>, k: Key): seq<real> {
    if ds == [] then []
    else
      var s := Run(cfg, EMPTY, ds[..|ds| - 1]);
      if UnitsOf(Run(cfg, EMPTY, ds).inv, k) == 0.0 then []
      else Stated(cfg, ds[..|ds| - 1], k) + StepStated(cfg, s, ds[|ds| - 1], k)
  }

  ghost predicate OneWayStep(cfg: Config, s: State, d: Directive) {
    d.Transaction? && Prepare(cfg, s, d).Some? ==> forall k :: OneWay(Prepare(cfg, s, d).value.ops, k)
  }

  /** No transaction of the run both increases and reduces one lot. */
  ghost predicate OneWayRun(cfg: Config, ds: seq<Directive>) {
    ds == [] || (OneWayRun(cfg, ds[..|ds| - 1]) && OneWayStep(cfg, Run(cfg, EMPTY, ds[..|ds| - 1]), ds[|ds| - 1]))
  }

  lemma StepBounded(cfg: Config, s: State, d: Directive, h: seq<real>, k: Key)
    requires Safe(s.inv) && Bounded(h, s.inv, k) && OneWayStep(cfg, s, d)
    ensures Bounded(h + StepStated(cfg, s, d, k), Apply(cfg, s, d).inv, k)
  {
    hide PlanAll;
    if !d.Transaction? {
      assert h + [] == h;
    } else {
      var ready := Prepare(cfg, s, d);
      if ready.None? || Oversold(s.inv, ready.value.ops) {
        assert h + [] == h;
      } else {
        PreparedPositive(cfg, s, d);
        PreparedPriced(cfg, s, d);
        PreparedAccounted(cfg, s, d);
        MoveBounded(h, s.inv, d.postings, ready.value.ops, k);
      }
    }
  }

  /**
    Average-cost bounds. When no transaction both increases and reduces a lot, the average of
    every lot in every reachable state lies between two unit costs that postings stated when buying
    into it since it was last empty; buys that join at the average do not count among them.
  */
  lemma {:induction false} AverageBetweenCosts(cfg: Config, ds: seq<Directive>, k: Key)
    requires OneWayRun(cfg, ds)
    ensures Bounded(Stated(cfg, ds, k), Run(cfg, EMPTY, ds).inv, k)
  {
    if ds != [] {
      var ds' := ds[..|ds| - 1];
      AverageBetweenCosts(cfg, ds', k);
      InventoryIsSafe(cfg, ds');
      StepBounded(cfg, Run(cfg, EMPTY, ds'), ds[|ds| - 1], Stated(cfg, ds', k), k);
    }
  }

  /** Every unit cost of the history stands in a posting of the stream. */
  lemma {:induction false} HistoryIsStated(cfg: Config, ds: seq<Directive>, k: Key, c: real)
    requires c in Stated(cfg, ds, k)
    ensures exists d | d in ds :: d.Transaction? && SomeStates(d.postings, k, c)
  {
    hide SomeStates, Prepare, Apply;
    var ds', d := ds[..|ds| - 1], ds[|ds| - 1];
    var s := Run(cfg, EMPTY, ds');
    assert d in ds;
    if c in Stated(cfg, ds', k) {
      HistoryIsStated(cfg, ds', k, c);
      assert forall e | e in ds' :: e in ds;
    } else {
      PreparedIfTxn(cfg, s, d);
      CostsAreStated(s.inv, d.postings, Prepare(cfg, s, d).value.ops, k);
    }
  }

  /**
    Over a run: when a booked transaction that does not also buy into a lot reduces it, the lot's
    average and cost commodity stay, and its last unit takes out exactly the cost left in it.
  */
  lemma RunReductionKeepsAverage(cfg: Config, ds: seq<Directive>, k: Key)
    requires ds != [] && ds[|ds| - 1].Transaction?
    requires var s := Run(cfg, EMPTY, ds[..|ds| - 1]);
             var t := ds[|ds| - 1];
             && HasPosition(s.inv, k) && Run(cfg, EMPTY, ds).txns != s.txns
             && Prepare(cfg, s, t).Some? && Net(Prepare(cfg, s, t).value.ops, k, true) == 0.0
    ensures var s, s' := Run(cfg, EMPTY, ds[..|ds| - 1]), Run(cfg, EMPTY, ds);
            var ops := Prepare(cfg, s, ds[|ds| - 1]).value.ops;
            && k in s'.inv && s'.inv[k].units == s.inv[k].units - Net(ops, k, false)
            && s'.inv[k].costComm == s.inv[k].costComm
            && (s'.inv[k].units != 0.0 ==> s'.inv[k].Avg() == s.inv[k].Avg())
            && (s'.inv[k].units == 0.0 ==> s.inv[k].totalCost - SoldCost(ops, k) == 0.0)
  {
    hide PlanAll, Prepare, Move;
    var s, t := Run(cfg, EMPTY, ds[..|ds| - 1]), ds[|ds| - 1];
    InventoryIsSafe(cfg, ds[..|ds| - 1]);
    PreparedPositive(cfg, s, t);
    PreparedPriced(cfg, s, t);
    PrepareSome(cfg, s, t);
    ReductionKeepsAverage(s.inv, Prepare(cfg, s, t).value.ops, k);
  }

  lemma NetTwo(x: InvOp, y: InvOp, k: Key, buy: bool)
    ensures Net([x, y], k, buy) ==
            (if x.key == k && x.buy == buy then x.units else 0.0) + if y.key == k && y.buy == buy then y.units else 0.0
  {
    assert [x, y][..1] == [x] && [x][..0] == [];
    assert Net([x], k, buy) == Net([], k, buy) + if x.key == k && x.buy == buy then x.units else 0.0;
  }

  /** Selling and buying one lot in one transaction can leave it a negative cost. */
  lemma MixedMoveGoesNegative()
    ensures var k := Key("A", "X");
            var inv := map[k := Position(1.0, 10.0, "USD")];
            var ops := [InvOp(true, k, 2.0, 0.2, "USD"), InvOp(false, k, 2.0, 20.0, "USD")];
            && Safe(inv) && Positive(ops) && Priced(inv, ops)
            && Move(inv, ops) == Pass(map[k := Position(1.0, -9.8, "USD")], None)
  {
    var k := Key("A", "X");
    var inv := map[k := Position(1.0, 10.0, "USD")];
    var ops := [InvOp(true, k, 2.0, 0.2, "USD"), InvOp(false, k, 2.0, 20.0, "USD")];
    assert ops[..1] == [ops[0]] && ops[..1][..0] == [];
    NetTwo(ops[0], ops[1], k, false);
    NetTwo(ops[0], ops[1], k, true);
    assert BuyPass(inv, ops[..1]) == Pass(Buy(inv, ops[0]), None);
    var bought := map[k := Position(3.0, 10.2, "USD")];
    assert BuyPass(inv, ops).inv == bought;
    assert SellPass(bought, ops[..1]) == Pass(bought, None);
  }
}
