/** What a posting that adds units says they cost, and what its transaction pays. */
module Purchases {
  import opened Ast
  import opened Names
  import opened Booking
  import opened Journal
  import opened Gains

  /** The posting adds units of the lot. */
  predicate Adds(p: Posting, k: Key, units: real) {
    && p.account == k.account && p.units == Some(RawAmount(Some(units), k.commodity))
    && !Blank(k.commodity) && units > 0.0
  }

  /** The number in the braces of the posting, if they hold one. */
  predicate Braced(p: Posting) {
    p.cost.Some? && !p.cost.value.empty && p.cost.value.number.Some?
  }

  /** The posting says that each of its units costs n in c: in braces, which win over a price, or after one
      at sign, or all of them together after two. */
  predicate StatesUnitCost(p: Posting, units: real, n: real, c: string) {
    if Braced(p) then p.cost.value.number.value == n && p.cost.value.commodity == c
    else
      && p.price.Some? && p.price.value.number.Some? && !Blank(c) && p.price.value.commodity == c
      && if p.price.value.total then n * units == Abs(p.price.value.number.value)
         else n == p.price.value.number.value
  }

  /** The leg and the move of units added at a total cost. */
  function BoughtFor(p: Posting, k: Key, units: real, total: real, c: string): Leg {
    Good(Filled(p.account, Some(Amount(units, k.commodity)), Some(Amount(total, c)), p.closing),
         Some(InvOp(true, k, units, total, c)))
  }

  lemma UnitOfTotal(total: real, units: real, n: real)
    requires units > 0.0 && n * units == total
    ensures total / units == n
  {
  }

  /** Units added at a stated unit cost are planned at units times that cost, in its commodity. */
  lemma StatedCostIsBooked(cfg: Config, inv: Inventory, p: Posting, k: Key, units: real, n: real, c: string)
    requires Adds(p, k, units) && StatesUnitCost(p, units, n, c)
    ensures PlanLeg(cfg, inv, p) == BoughtFor(p, k, units, units * n, c)
  {
    hide Blank;
    if !Braced(p) && p.price.value.total { UnitOfTotal(Abs(p.price.value.number.value), units, n); }
    assert ResolveIncreaseCost(p, units) == Some(Amount(n, c));
    BuyAt(inv, p, k, units, Filled(p.account, Some(Amount(units, k.commodity)), None, p.closing), n, c, units * n);
  }

  /** What the booking takes as a posting's own unit cost is what the posting states. */
  lemma OwnCostIsStated(p: Posting, units: real)
    requires units > 0.0 && ResolveIncreaseCost(p, units).Some?
    ensures var own := ResolveIncreaseCost(p, units).value; StatesUnitCost(p, units, own.number, own.commodity)
  {
    hide Blank;
    var own := ResolveIncreaseCost(p, units).value;
    if !Braced(p) && p.price.value.total { TotalOfUnit(Abs(p.price.value.number.value), units, own.number); }
  }

  /** Without a stated cost, units join the lot at its average, or are refused, or are no lot. */
  lemma UnstatedCostIsBooked(cfg: Config, inv: Inventory, p: Posting, k: Key, units: real, avg: real)
    requires Adds(p, k, units) && forall n, c :: !StatesUnitCost(p, units, n, c)
    requires k in inv && inv[k].units > 0.0 ==> avg * inv[k].units == inv[k].totalCost
    ensures PlanLeg(cfg, inv, p) ==
            if k in inv && inv[k].units > 0.0 && inv[k].costComm != ""
            then BoughtFor(p, k, units, units * avg, inv[k].costComm)
            else if p.cost.Some? || (k in inv && inv[k].units != 0.0) then Bad(BuyNeedsCost(p.account, k.commodity))
            else Good(Filled(p.account, Some(Amount(units, k.commodity)), None, p.closing), None)
  {
    hide Blank, ResolveIncreaseCost, StatesUnitCost;
    var own := ResolveIncreaseCost(p, units);
    assert own.None? by {
      if own.Some? { OwnCostIsStated(p, units); }
    }
    assert Key(p.account, k.commodity) == k;
    if k in inv && inv[k].units > 0.0 && inv[k].costComm != "" {
      UnitOfTotal(inv[k].totalCost, inv[k].units, avg);
      JoinBasis(cfg, inv, p, k, units, avg);
    } else {
      var bare := Filled(p.account, Some(Amount(units, k.commodity)), None, p.closing);
      NoBasis(cfg, inv, p, k, units, bare);
    }
  }

  lemma JoinBasis(cfg: Config, inv: Inventory, p: Posting, k: Key, units: real, avg: real)
    requires Adds(p, k, units) && ResolveIncreaseCost(p, units).None?
    requires k in inv && inv[k].units > 0.0 && inv[k].costComm != "" && avg == inv[k].totalCost / inv[k].units
    ensures PlanLeg(cfg, inv, p) == BoughtFor(p, k, units, units * avg, inv[k].costComm)
  {
    hide Blank, ResolveIncreaseCost;
    BuyAt(inv, p, k, units, Filled(p.account, Some(Amount(units, k.commodity)), None, p.closing), avg,
          inv[k].costComm, units * avg);
  }

  lemma NoBasis(cfg: Config, inv: Inventory, p: Posting, k: Key, units: real, bare: Filled)
    requires Adds(p, k, units) && ResolveIncreaseCost(p, units).None?
    requires !(k in inv && inv[k].units > 0.0 && inv[k].costComm != "")
    requires bare == Filled(p.account, Some(Amount(units, k.commodity)), None, p.closing)
    ensures PlanLeg(cfg, inv, p) ==
            if p.cost.Some? || (k in inv && inv[k].units != 0.0) then Bad(BuyNeedsCost(p.account, k.commodity))
            else Good(bare, None)
  {
    hide Blank, ResolveIncreaseCost;
  }

  lemma TotalOfUnit(total: real, units: real, n: real)
    requires units > 0.0 && n == total / Abs(units)
    ensures n * units == total
  {
  }

  // ----- a purchase and what pays for it

  /** A stated cost in a commodity weighs as the cost, not at face. */
  lemma StatedWeight(p: Posting, k: Key, units: real, n: real, c: string, demand: set<string>)
    requires Adds(p, k, units) && StatesUnitCost(p, units, n, c) && c != ""
    ensures LegWeight(p, BoughtFor(p, k, units, units * n, c).filled, demand) == [Weight(c, units * n)]
  {
    hide Blank;
  }

  lemma BuyThenEmpty(cfg: Config, s: State, t: Directive, buy: nat, empty: nat, leg: Leg)
    requires t.Transaction? && |t.postings| == 2 && Pair(buy, empty)
    requires PlanLeg(cfg, s.inv, t.postings[buy]) == leg && leg.Good? && t.postings[empty].units.None?
    ensures var plan := PlanAll(cfg, s, t.meta.date, t.postings);
            var e := t.postings[empty];
            && plan.Planned? && plan.residual == Some(empty) && plan.ops == OpOf(leg) && |plan.filled| == 2
            && plan.filled[buy] == leg.filled && plan.filled[empty] == Filled(e.account, None, None, e.closing)
  {
    hide CheckAccount, PlanLeg, PlanAll, PlanNext;
    var ps, date := t.postings, t.meta.date;
    assert ps == [ps[0], ps[1]];
    PlanTwo(cfg, s, date, ps[0], ps[1]);
    EmptyPlanned(cfg, s.inv, ps[empty]);
    var e := ps[empty];
    var fs := seq(2, i => if i == buy then leg.filled else Filled(e.account, None, None, e.closing));
    var none := Planned([], [], None, multiset{});
    NextPlanned(cfg, s, date, ps[0], fs[0], empty == 0, none);
    NextPlanned(cfg, s, date, ps[1], fs[1], empty == 1, PlanNext(cfg, s, date, ps[0], none));
  }

  lemma OneLeftOver(cfg: Config, c: string, x: real)
    ensures var ws := [Weight(c, x)];
            && SumFor(ws, c) == x
            && Listing(ResidualCommodities(cfg, ws)) == if x != 0.0 && Abs(x) > Tol(cfg, c) then [c] else []
  {
    hide Listing, Tol;
    var ws := [Weight(c, x)];
    assert ws[..0] == [] && ws[0] in ws;
    assert SumFor(ws, c) == SumFor([], c) + x;
    assert Commodities(ws) == {c};
    if x != 0.0 && Abs(x) > Tol(cfg, c) {
      assert ResidualCommodities(cfg, ws) == {c};
      ListingUnique([c], {c});
    } else {
      assert ResidualCommodities(cfg, ws) == {};
      ListingUnique([], {});
    }
  }

  lemma TwoFilled(cfg: Config, fs: seq<Filled>, e: nat, c: string, x: real)
    requires |fs| == 2 && e < 2 && fs[e].costBasis.None?
    ensures FillResidual(cfg, fs, e, [Weight(c, x)]) == fs[e := fs[e].(units := Some(GainAmount(cfg, 0.0, x, c)))]
  {
    hide Listing, ResidualCommodities, SumFor, Tol;
    var ws := [Weight(c, x)];
    OneLeftOver(cfg, c, x);
    assert ResidualLegs(fs[e], ws, [c]) == [ResidualLeg(fs[e], ws, c)];
  }

  lemma NoOtherMoves(inv: Inventory, fs: seq<Filled>, buy: nat, empty: nat, op: InvOp)
    requires |fs| == 2 && Pair(buy, empty) && fs[buy].units.Some? && fs[empty].units.Some?
    requires OpMatches(op, Key(fs[buy].account, fs[buy].units.value.commodity), fs[buy].units.value.number)
    requires fs[empty].units.value.number == 0.0
          || !HasPosition(inv, Key(fs[empty].account, fs[empty].units.value.commodity))
    ensures ResidualOps(inv, fs, [op]) == [op]
  {
    hide OpMatches, HasPosition;
    assert fs == [fs[0], fs[1]] && fs[..1] == [fs[0]] && [fs[0]][..0] == [];
    assert OpMatches([op][0], Key(fs[buy].account, fs[buy].units.value.commodity), fs[buy].units.value.number);
    forall i, ops | 0 <= i < 2 && ops == [op] ensures ResidualOp(inv, fs[i], ops) == [] {
      assert i == buy || i == empty;
    }
    assert ResidualOps(inv, [], [op]) == [op];
    assert ResidualOps(inv, [fs[0]], [op]) == [op] + ResidualOp(inv, fs[0], [op]);
    assert ResidualOps(inv, fs, [op]) ==
           ResidualOps(inv, fs[..1], [op]) + ResidualOp(inv, fs[1], ResidualOps(inv, fs[..1], [op]));
  }

  lemma OneMove(inv: Inventory, op: InvOp)
    requires op.buy && op.units > 0.0 && !BuyMismatch(inv, op)
    ensures Move(inv, [op]) == Pass(Buy(inv, op), None)
  {
    assert [op][..0] == [];
    assert BuyPass(inv, [op]) == Pass(Buy(inv, op), None);
    assert SellPass(Buy(inv, op), [op]) == Pass(Buy(inv, op), None);
  }

  /** The purchase is two postings in either order, one that adds units and one that is empty, on an
      account without a lot of the cost's commodity; and the lot is not costed otherwise. */
  ghost predicate Purchase(s: State, t: Directive, buy: nat, empty: nat, k: Key, units: real, n: real, c: string) {
    && t.Transaction? && |t.postings| == 2 && Pair(buy, empty)
    && Adds(t.postings[buy], k, units) && StatesUnitCost(t.postings[buy], units, n, c) && c != ""
    && t.postings[empty].units.None? && !HasPosition(s.inv, Key(t.postings[empty].account, c))
    && (HasPosition(s.inv, k) ==> s.inv[k].costComm in {"", c})
  }

  lemma PurchasePrepared(cfg: Config, s: State, t: Directive, buy: nat, empty: nat, k: Key, units: real, n: real,
                         c: string)
    requires Purchase(s, t, buy, empty, k, units, n, c)
    ensures Prepare(cfg, s, t).Some?
    ensures var e, ready := t.postings[empty], Prepare(cfg, s, t).value;
            && ready.ops == [InvOp(true, k, units, units * n, c)] && |ready.filled| == 2
            && ready.filled[buy] == BoughtFor(t.postings[buy], k, units, units * n, c).filled
            && ready.filled[empty] == Filled(e.account, Some(GainAmount(cfg, 0.0, units * n, c)), None, e.closing)
  {
    hide PlanLeg, PlanAll, StatesUnitCost, FillResidual, Weights, FaceDemands, ResidualOps, Tol, Blank;
    var ps := t.postings;
    var leg := BoughtFor(ps[buy], k, units, units * n, c);
    StatedCostIsBooked(cfg, s.inv, ps[buy], k, units, n, c);
    BuyThenEmpty(cfg, s, t, buy, empty, leg);
    var fs := PlanAll(cfg, s, t.meta.date, ps).filled;
    var demand := FaceDemands(ps, fs);
    TwoLegs(ps, fs, demand);
    StatedWeight(ps[buy], k, units, n, c, demand);
    assert TxnWeights(ps, fs) == [Weight(c, units * n)];
    TwoFilled(cfg, fs, empty, c, units * n);
    NoOtherMoves(s.inv, FillResidual(cfg, fs, empty, [Weight(c, units * n)]), buy, empty, leg.op.value);
  }

  /**
    What a purchase costs: units times the stated unit cost goes into the lot, in the commodity of the
    cost, on top of what was there; the empty leg pays exactly that, or nothing within tolerance.
  */
  lemma PurchaseBooks(cfg: Config, s: State, t: Directive, buy: nat, empty: nat, k: Key, units: real, n: real,
                      c: string)
    requires Purchase(s, t, buy, empty, k, units, n, c)
    ensures var s', paid := BookTxn(cfg, s, t), units * n;
            var held, cost := UnitsOf(s.inv, k), if k in s.inv then s.inv[k].totalCost else 0.0;
            && s'.inv == s.inv[k := Position(held + units, cost + paid, c)]
            && |s'.txns| == |s.txns| + 1 && |s'.txns[|s.txns|].filled| == 2
            && s'.txns[|s.txns|].filled[buy].units == Some(Amount(units, k.commodity))
            && s'.txns[|s.txns|].filled[empty].account == t.postings[empty].account
            && s'.txns[|s.txns|].filled[empty].units ==
               Some(if paid != 0.0 && Abs(paid) > Tol(cfg, c) then Amount(-paid, c) else Amount(0.0, ""))
  {
    hide PlanAll, Prepare, StatesUnitCost, PostAll, Move, Tol, Blank;
    PurchasePrepared(cfg, s, t, buy, empty, k, units, n, c);
    PrepareSome(cfg, s, t);
    OneMove(s.inv, InvOp(true, k, units, units * n, c));
  }
}
