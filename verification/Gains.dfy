/** What inventory legs weigh, and what the empty leg of a sale receives. */
module Gains {
  import opened Ast
  import opened Names
  import opened Booking
  import opened Journal

  /**
    What a leg moves in or out of a lot at cost is what it weighs in the balance of its
    transaction; the exception is cash of a foreign cost that weighs at face value.
  */
  lemma InventoryWeighsItsCost(cfg: Config, inv: Inventory, p: Posting, demand: set<string>)
    requires var leg := PlanLeg(cfg, inv, p); leg.Good? && leg.op.Some? && leg.op.value.costComm != ""
    ensures var leg := PlanLeg(cfg, inv, p);
            var op, units := leg.op.value, leg.filled.units;
            && units.Some? && op.key == Key(p.account, units.value.commodity) && op.units == Abs(units.value.number)
            && LegWeight(p, leg.filled, demand) ==
               if CashFaceWeight(p, units.value, leg.filled.costBasis, demand)
               then [Weight(units.value.commodity, units.value.number)]
               else [Weight(op.costComm, if op.buy then op.total else -op.total)]
  {
    hide Blank, ResolveIncreaseCost, CashFaceWeight;
  }

  /** An increase priced in total, without braces, goes into its lot at exactly that total. */
  lemma TotalPriceIsCost(cfg: Config, inv: Inventory, p: Posting, units: real, comm: string, total: real, c: string)
    requires p.units == Some(RawAmount(Some(units), comm)) && !Blank(comm) && units > 0.0
    requires p.cost.None? && p.price == Some(PriceSpec(Some(total), c, true)) && !Blank(c)
    ensures PlanLeg(cfg, inv, p) ==
            Good(Filled(p.account, Some(Amount(units, comm)), Some(Amount(Abs(total), c)), p.closing),
                 Some(InvOp(true, Key(p.account, comm), units, Abs(total), c)))
  {
    hide Blank;
    var basis := IncreaseBasis(inv, p, Key(p.account, comm), units);
    assert basis == Some(Amount(Abs(total) / Abs(units), c));
    Shares(units, Abs(total), basis.value.number);
    BuyAt(inv, p, Key(p.account, comm), units, Filled(p.account, Some(Amount(units, comm)), None, p.closing),
          basis.value.number, c, Abs(total));
  }

  lemma BuyAt(inv: Inventory, p: Posting, k: Key, units: real, bare: Filled, n: real, c: string, total: real)
    requires IncreaseBasis(inv, p, k, units) == Some(Amount(n, c)) && CostAt(units, n) == total
    ensures PlanBuy(inv, p, k, units, bare) ==
            Good(bare.(costBasis := Some(Amount(total, c))), Some(InvOp(true, k, units, total, c)))
  {
    hide IncreaseBasis, CostAt;
  }

  lemma Shares(units: real, total: real, unit: real)
    requires units > 0.0 && unit == total / Abs(units)
    ensures CostAt(units, unit) == total
  {
  }

  /** A reduction of something that is not held at cost is no inventory leg, whatever its price says. */
  lemma ReductionWithoutLot(cfg: Config, inv: Inventory, p: Posting, k: Key, u: real)
    requires p.account == k.account && p.units == Some(RawAmount(Some(-u), k.commodity)) && !Blank(k.commodity)
    requires u > 0.0 && p.cost.None? && !HasPosition(inv, k)
    ensures PlanLeg(cfg, inv, p) == Good(Filled(p.account, Some(Amount(-u, k.commodity)), None, p.closing), None)
    ensures p.price.Some? && p.price.value.number.Some? ==>
              PostingWeight(p, Amount(-u, k.commodity), None) ==
              Weight(p.price.value.commodity,
                     if p.price.value.total then -Abs(p.price.value.number.value)
                     else -CostAt(u, p.price.value.number.value))
  {
    hide Blank;
  }

  /** The posting sells u units of lot k, and states no unit cost that contradicts the lot's average. */
  predicate Sells(cfg: Config, inv: Inventory, p: Posting, k: Key, u: real) {
    && p.account == k.account && p.units == Some(RawAmount(Some(-u), k.commodity))
    && u > 0.0 && !Blank(k.commodity) && HasPosition(inv, k)
    && (ExplicitCost(p) && p.cost.value.number.Some? ==>
          Abs(p.cost.value.number.value - LotAvg(inv, k)) <= Tol(cfg, k.commodity))
  }

  /** The posting takes in cash of commodity c, bare, on an account without a lot of it. */
  predicate Receives(inv: Inventory, q: Posting, cash: real, c: string) {
    && q.units == Some(RawAmount(Some(cash), c)) && q.cost.None? && q.price.None?
    && !Blank(c) && !HasPosition(inv, Key(q.account, c))
  }

  function SoldLeg(inv: Inventory, p: Posting, k: Key, u: real): Filled {
    Filled(p.account, Some(Amount(-u, k.commodity)), Some(Amount(-CostAt(u, LotAvg(inv, k)), LotComm(inv, k))),
        p.closing)
  }

  function CashLeg(q: Posting, cash: real, c: string): Filled {
    Filled(q.account, Some(Amount(cash, c)), None, q.closing)
  }

  function Sale(inv: Inventory, k: Key, u: real): InvOp {
    InvOp(false, k, u, CostAt(u, LotAvg(inv, k)), LotComm(inv, k))
  }

  lemma SalePlanned(cfg: Config, inv: Inventory, p: Posting, k: Key, u: real)
    requires Sells(cfg, inv, p, k, u)
    ensures PlanLeg(cfg, inv, p) == Good(SoldLeg(inv, p, k, u), Some(Sale(inv, k, u)))
  {
    hide Blank, LotAvg, Abs, PlanSell;
    var bare := Filled(p.account, Some(Amount(-u, k.commodity)), None, p.closing);
    assert PlanLeg(cfg, inv, p) == PlanSell(cfg, inv, p, k, u, bare);
    SellAt(cfg, inv, p, k, u, bare);
  }

  lemma SellAt(cfg: Config, inv: Inventory, p: Posting, k: Key, u: real, bare: Filled)
    requires Sells(cfg, inv, p, k, u)
    ensures PlanSell(cfg, inv, p, k, u, bare) ==
            Good(bare.(costBasis := Some(Amount(-CostAt(u, LotAvg(inv, k)), LotComm(inv, k)))), Some(Sale(inv, k, u)))
  {
    hide Blank, LotAvg, Abs, CostAt;
  }

  lemma CashPlanned(cfg: Config, inv: Inventory, q: Posting, cash: real, c: string)
    requires Receives(inv, q, cash, c)
    ensures PlanLeg(cfg, inv, q) == Good(CashLeg(q, cash, c), None)
  {
    hide Blank;
  }

  lemma EmptyPlanned(cfg: Config, inv: Inventory, r: Posting)
    requires r.units.None?
    ensures PlanLeg(cfg, inv, r) == Residual
  {
  }

  // ----- three postings, one of them empty

  function OpOf(leg: Leg): seq<InvOp> {
    if leg.Good? && leg.op.Some? then [leg.op.value] else []
  }

  lemma OnePlanned(cfg: Config, s: State, date: Date, ps: seq<Posting>)
    requires ps != []
    ensures PlanAll(cfg, s, date, ps) ==
            PlanNext(cfg, s, date, ps[|ps| - 1], PlanAll(cfg, s, date, ps[..|ps| - 1]))
  {
    hide PlanNext;
  }

  /** Three postings of which one is empty plan to their legs, in order, with the empty leg left open. */
  lemma ThreePlanned(cfg: Config, s: State, date: Date, ps: seq<Posting>, fs: seq<Filled>, e: nat)
    requires |ps| == |fs| == 3 && e < 3
    requires forall i | 0 <= i < 3 && i != e ::
               PlanLeg(cfg, s.inv, ps[i]).Good? && PlanLeg(cfg, s.inv, ps[i]).filled == fs[i]
    requires ps[e].units.None? && fs[e] == Filled(ps[e].account, None, None, ps[e].closing)
    ensures var plan := PlanAll(cfg, s, date, ps);
            && plan.Planned? && plan.filled == fs && plan.residual == Some(e)
            && plan.ops == OpOf(PlanLeg(cfg, s.inv, ps[0])) + OpOf(PlanLeg(cfg, s.inv, ps[1]))
                           + OpOf(PlanLeg(cfg, s.inv, ps[2]))
  {
    hide CheckAccount, PlanLeg, PlanAll, PlanNext, OpOf;
    EmptyPlanned(cfg, s.inv, ps[e]);
    var one, two := [ps[0]], [ps[0], ps[1]];
    assert ps[..2] == two && two[..1] == one && one[..0] == [];
    OnePlanned(cfg, s, date, ps);
    OnePlanned(cfg, s, date, two);
    OnePlanned(cfg, s, date, one);
    NonePlanned(cfg, s, date);
    NextPlanned(cfg, s, date, ps[0], fs[0], e == 0, PlanAll(cfg, s, date, []));
    NextPlanned(cfg, s, date, ps[1], fs[1], e == 1, PlanAll(cfg, s, date, one));
    NextPlanned(cfg, s, date, ps[2], fs[2], e == 2, PlanAll(cfg, s, date, two));
    assert [] + [fs[0]] == [fs[0]] && [fs[0]] + [fs[1]] == [fs[0], fs[1]] && [fs[0], fs[1]] + [fs[2]] == fs;
    assert [] + OpOf(PlanLeg(cfg, s.inv, ps[0])) == OpOf(PlanLeg(cfg, s.inv, ps[0]));
  }

  lemma NextPlanned(cfg: Config, s: State, date: Date, p: Posting, fp: Filled, empty: bool, plan: Plan)
    requires plan.Planned? && (empty ==> plan.residual.None?)
    requires var leg := PlanLeg(cfg, s.inv, p);
             if empty then leg.Residual? && fp == Filled(p.account, None, None, p.closing)
             else leg.Good? && leg.filled == fp
    ensures var next := PlanNext(cfg, s, date, p, plan);
            && next.Planned? && next.filled == plan.filled + [fp]
            && next.ops == plan.ops + OpOf(PlanLeg(cfg, s.inv, p))
            && next.residual == if empty then Some(|plan.filled|) else plan.residual
  {
    hide CheckAccount, PlanLeg;
  }

  lemma NonePlanned(cfg: Config, s: State, date: Date)
    ensures PlanAll(cfg, s, date, []) == Planned([], [], None, multiset{})
  {
  }

  lemma ThreeDemands(ps: seq<Posting>, fs: seq<Filled>)
    requires |ps| == |fs| == 3
    ensures FaceDemands(ps, fs) == FaceDemand(ps[0], fs[0]) + FaceDemand(ps[1], fs[1]) + FaceDemand(ps[2], fs[2])
  {
    hide FaceDemand;
    assert ps[..2][..1] == [ps[0]] && fs[..2][..1] == [fs[0]] && [ps[0]][..0] == [] && [fs[0]][..0] == [];
    assert FaceDemands([ps[0]], [fs[0]]) == FaceDemands([], []) + FaceDemand(ps[0], fs[0]);
    assert FaceDemands(ps[..2], fs[..2]) == FaceDemands(ps[..2][..1], fs[..2][..1]) + FaceDemand(ps[1], fs[1]);
  }

  lemma ThreeWeights(ps: seq<Posting>, fs: seq<Filled>, demand: set<string>)
    requires |ps| == |fs| == 3
    ensures Weights(ps, fs, demand) ==
            LegWeight(ps[0], fs[0], demand) + LegWeight(ps[1], fs[1], demand) + LegWeight(ps[2], fs[2], demand)
  {
    hide LegWeight;
    assert ps[..2][..1] == [ps[0]] && fs[..2][..1] == [fs[0]] && [ps[0]][..0] == [] && [fs[0]][..0] == [];
    assert Weights([ps[0]], [fs[0]], demand) == Weights([], [], demand) + LegWeight(ps[0], fs[0], demand);
    assert Weights(ps[..2], fs[..2], demand) ==
           Weights(ps[..2][..1], fs[..2][..1], demand) + LegWeight(ps[1], fs[1], demand);
  }

  /** The empty leg takes what one commodity leaves over, in its place. */
  lemma ThreeFilled(cfg: Config, fs: seq<Filled>, e: nat, ws: seq<Weight>, c: string)
    requires |fs| == 3 && e < 3
    ensures var cs := Listing(ResidualCommodities(cfg, ws));
            && (cs == [c] ==> FillResidual(cfg, fs, e, ws) == fs[e := ResidualLeg(fs[e], ws, c)])
            && (cs == [] ==> FillResidual(cfg, fs, e, ws) == fs[e := fs[e].(units := Some(Amount(0.0, "")))])
  {
    hide Listing, ResidualCommodities, SumFor;
    assert ResidualLegs(fs[e], ws, [c]) == [ResidualLeg(fs[e], ws, c)];
  }

  /** The positions of the sale, the cash and the empty leg, in any order. */
  predicate Positions(sale: nat, money: nat, empty: nat) {
    sale < 3 && money < 3 && empty < 3 && sale != money && sale != empty && money != empty
  }

  /** Nothing in a sale for cash of c demands what is sold in face terms. */
  lemma SaleDemands(inv: Inventory, ps: seq<Posting>, fs: seq<Filled>, sale: nat, money: nat, empty: nat,
                    k: Key, u: real, cash: real, c: string)
    requires |ps| == |fs| == 3 && Positions(sale, money, empty)
    requires fs[sale] == SoldLeg(inv, ps[sale], k, u) && u > 0.0 && fs[money] == CashLeg(ps[money], cash, c)
    requires ps[money].cost.None? && ps[money].price.None? && ps[empty].units.None? && c != k.commodity
    ensures k.commodity !in FaceDemands(ps, fs)
  {
    hide LotAvg, LotComm, CostAt, FaceDemands;
    ThreeDemands(ps, fs);
    forall i | 0 <= i < 3 ensures k.commodity !in FaceDemand(ps[i], fs[i]) {
      assert i == sale || i == money || i == empty;
    }
  }

  lemma SaleWeights(inv: Inventory, ps: seq<Posting>, fs: seq<Filled>, sale: nat, money: nat, empty: nat,
                    k: Key, u: real, cash: real)
    requires |ps| == |fs| == 3 && Positions(sale, money, empty)
    requires fs[sale] == SoldLeg(inv, ps[sale], k, u) && ps[sale].units.Some? && u > 0.0
    requires fs[money] == CashLeg(ps[money], cash, LotComm(inv, k))
    requires ps[money].cost.None? && ps[money].price.None? && ps[money].units.Some? && ps[empty].units.None?
    requires var c := LotComm(inv, k); c != "" && c != k.commodity
    ensures var c, cost := LotComm(inv, k), CostAt(u, LotAvg(inv, k));
            TxnWeights(ps, fs) == if sale < money then [Weight(c, -cost), Weight(c, cash)]
                                  else [Weight(c, cash), Weight(c, -cost)]
  {
    hide FaceDemands, LotAvg, LotComm, CostAt, Weights;
    var c, demand := LotComm(inv, k), FaceDemands(ps, fs);
    SaleDemands(inv, ps, fs, sale, money, empty, k, u, cash, c);
    ThreeWeights(ps, fs, demand);
    assert LegWeight(ps[sale], fs[sale], demand) == [Weight(c, -CostAt(u, LotAvg(inv, k)))];
    assert LegWeight(ps[money], fs[money], demand) == [Weight(c, cash)];
    assert LegWeight(ps[empty], fs[empty], demand) == [];
  }

  /** What units added to a lot count for: their face amount, but their cost in a lot costed in itself. */
  function Worthwhile(pos: Position, comm: string, u: real): real {
    if pos.costComm == comm then CostAt(u, pos.Avg()) else u
  }

  /** Cash added to a lot of a foreign cost without braces joins at the average and weighs at face value. */
  lemma DepositAtFace(cfg: Config, inv: Inventory, p: Posting, k: Key, u: real, demand: set<string>)
    requires p.account == k.account && p.units == Some(RawAmount(Some(u), k.commodity)) && !Blank(k.commodity)
    requires u > 0.0 && p.cost.None? && p.price.None?
    requires k in inv && inv[k].units > 0.0 && inv[k].costComm != ""
    ensures var leg := PlanLeg(cfg, inv, p);
            && leg.Good? && leg.op == Some(InvOp(true, k, u, CostAt(u, inv[k].Avg()), inv[k].costComm))
            && LegWeight(p, leg.filled, demand) == [Weight(k.commodity, Worthwhile(inv[k], k.commodity, u))]
  {
    hide Blank, CostAt;
  }

  lemma TwoWeights(c: string, a: real, b: real, d: string)
    ensures SumFor([Weight(c, a), Weight(c, b)], d) == if d == c then a + b else 0.0
  {
    var ws := [Weight(c, a), Weight(c, b)];
    assert ws[..1] == [ws[0]] && [ws[0]][..0] == [];
    assert SumFor([ws[0]], d) == SumFor([], d) + if d == c then a else 0.0;
  }

  lemma TwoLeftOver(cfg: Config, c: string, a: real, b: real)
    ensures Listing(ResidualCommodities(cfg, [Weight(c, a), Weight(c, b)]))
          == if a + b != 0.0 && Abs(a + b) > Tol(cfg, c) then [c] else []
  {
    hide Listing, Tol, SumFor;
    var ws := [Weight(c, a), Weight(c, b)];
    TwoWeights(c, a, b, c);
    assert ws[0] in ws;
    assert Commodities(ws) == {c};
    if a + b != 0.0 && Abs(a + b) > Tol(cfg, c) {
      assert ResidualCommodities(cfg, ws) == {c};
      ListingUnique([c], {c});
    } else {
      assert ResidualCommodities(cfg, ws) == {};
      ListingUnique([], {});
    }
  }

  /** What the empty leg receives: cost less cash, unless they agree within tolerance. */
  function GainAmount(cfg: Config, cost: real, cash: real, c: string): Amount {
    if cash != cost && Abs(cash - cost) > Tol(cfg, c) then Amount(cost - cash, c) else Amount(0.0, "")
  }

  /**
    Gains. When a transaction of three postings, in any order, sells a lot costed in commodity c,
    takes in cash of c and has an empty leg, that leg receives the lot's average cost of the units
    sold less the cash, in c: a gain is negative, as income is. Within tolerance it receives nothing.
  */
  lemma SaleGains(cfg: Config, s: State, t: Directive, sale: nat, money: nat, empty: nat, k: Key, u: real, cash: real)
    requires t.Transaction? && |t.postings| == 3 && Positions(sale, money, empty)
    requires var c, ps := LotComm(s.inv, k), t.postings;
             && Sells(cfg, s.inv, ps[sale], k, u) && Receives(s.inv, ps[money], cash, c) && ps[empty].units.None?
             && c != k.commodity
    ensures Prepare(cfg, s, t).Some?
    ensures var c, cost, ps := LotComm(s.inv, k), CostAt(u, LotAvg(s.inv, k)), t.postings;
            var filled := Prepare(cfg, s, t).value.filled;
            && |filled| == 3
            && filled[sale] == SoldLeg(s.inv, ps[sale], k, u)
            && filled[money] == CashLeg(ps[money], cash, c)
            && filled[empty] ==
               Filled(ps[empty].account, Some(GainAmount(cfg, cost, cash, c)), None, ps[empty].closing)
  {
    hide PlanAll, TxnWeights, Sells, Receives, ResidualCommodities, LotAvg, LotComm, CostAt, Listing, Tol, PlanLeg,
      SumFor, FillResidual;
    var c, cost, ps := LotComm(s.inv, k), CostAt(u, LotAvg(s.inv, k)), t.postings;
    var sold, got := SoldLeg(s.inv, ps[sale], k, u), CashLeg(ps[money], cash, c);
    var open := Filled(ps[empty].account, None, None, ps[empty].closing);
    var fs := seq(3, i => if i == sale then sold else if i == money then got else open);
    SalePlanned(cfg, s.inv, ps[sale], k, u);
    CashPlanned(cfg, s.inv, ps[money], cash, c);
    SaleFacts(cfg, s.inv, ps[sale], ps[money], k, u, cash, c);
    ThreePlanned(cfg, s, t.meta.date, ps, fs, empty);
    SaleWeights(s.inv, ps, fs, sale, money, empty, k, u, cash);
    SaleLeftOver(cfg, ps, fs, empty, sale < money, cost, cash, c);
  }

  lemma SaleLeftOver(cfg: Config, ps: seq<Posting>, fs: seq<Filled>, e: nat, first: bool, cost: real, cash: real,
                     c: string)
    requires |ps| == |fs| == 3 && e < 3 && fs[e].costBasis.None?
    requires TxnWeights(ps, fs) ==
             if first then [Weight(c, -cost), Weight(c, cash)] else [Weight(c, cash), Weight(c, -cost)]
    ensures FillResidual(cfg, fs, e, TxnWeights(ps, fs))
         == fs[e := fs[e].(units := Some(GainAmount(cfg, cost, cash, c)))]
  {
    hide TxnWeights, ResidualCommodities, Listing, FillResidual, SumFor, Tol;
    var ws := TxnWeights(ps, fs);
    if first {
      TwoLeftOver(cfg, c, -cost, cash);
      TwoWeights(c, -cost, cash, c);
    } else {
      TwoLeftOver(cfg, c, cash, -cost);
      TwoWeights(c, cash, -cost, c);
    }
    ThreeFilled(cfg, fs, e, ws, c);
  }

  lemma SaleFacts(cfg: Config, inv: Inventory, p: Posting, q: Posting, k: Key, u: real, cash: real, c: string)
    requires Sells(cfg, inv, p, k, u) && Receives(inv, q, cash, c)
    ensures p.units.Some? && u > 0.0 && q.cost.None? && q.price.None? && q.units.Some? && c != ""
  {
  }

  // ----- two postings that balance

  lemma TwoBalance(cfg: Config, c: string, a: real, b: real)
    ensures Unabsorbed(cfg, [Weight(c, a), Weight(c, b)]) == {} <==> Abs(a + b) <= Tol(cfg, c)
  {
    hide Tol, SumFor;
    var ws := [Weight(c, a), Weight(c, b)];
    TwoWeights(c, a, b, c);
    assert ws[0] in ws;
    assert Commodities(ws) == {c};
    assert Abs(a + b) > Tol(cfg, c) ==> c in Unabsorbed(cfg, ws);
  }

  lemma TwoLegs(ps: seq<Posting>, fs: seq<Filled>, demand: set<string>)
    requires |ps| == |fs| == 2
    ensures Weights(ps, fs, demand) == LegWeight(ps[0], fs[0], demand) + LegWeight(ps[1], fs[1], demand)
    ensures FaceDemands(ps, fs) == FaceDemand(ps[0], fs[0]) + FaceDemand(ps[1], fs[1])
  {
    hide LegWeight, FaceDemand;
    assert ps[..1] == [ps[0]] && fs[..1] == [fs[0]] && [ps[0]][..0] == [] && [fs[0]][..0] == [];
    assert Weights([ps[0]], [fs[0]], demand) == Weights([], [], demand) + LegWeight(ps[0], fs[0], demand);
    assert FaceDemands([ps[0]], [fs[0]]) == FaceDemands([], []) + FaceDemand(ps[0], fs[0]);
  }

  /** Two postings that plan to legs: their moves, and no empty leg. */
  lemma TwoPlanned(cfg: Config, s: State, date: Date, ps: seq<Posting>)
    requires |ps| == 2 && PlanLeg(cfg, s.inv, ps[0]).Good? && PlanLeg(cfg, s.inv, ps[1]).Good?
    ensures var plan := PlanAll(cfg, s, date, ps);
            && plan.Planned? && plan.residual.None?
            && plan.filled == [PlanLeg(cfg, s.inv, ps[0]).filled, PlanLeg(cfg, s.inv, ps[1]).filled]
            && plan.ops == OpOf(PlanLeg(cfg, s.inv, ps[0])) + OpOf(PlanLeg(cfg, s.inv, ps[1]))
  {
    hide CheckAccount, PlanLeg, PlanAll, PlanNext, OpOf;
    assert ps == [ps[0], ps[1]];
    PlanTwo(cfg, s, date, ps[0], ps[1]);
    var none := Planned([], [], None, multiset{});
    var fs := [PlanLeg(cfg, s.inv, ps[0]).filled, PlanLeg(cfg, s.inv, ps[1]).filled];
    NextPlanned(cfg, s, date, ps[0], fs[0], false, none);
    NextPlanned(cfg, s, date, ps[1], fs[1], false, PlanNext(cfg, s, date, ps[0], none));
    assert [] + [fs[0]] == [fs[0]] && [fs[0]] + [fs[1]] == fs;
    assert [] + OpOf(PlanLeg(cfg, s.inv, ps[0])) == OpOf(PlanLeg(cfg, s.inv, ps[0]));
  }

  /** The positions of two postings, in either order. */
  predicate Pair(a: nat, b: nat) {
    a < 2 && b < 2 && a != b
  }

  /** A transaction of two postings, in either order, that weigh x and y in one commodity. */
  lemma TwoBooked(cfg: Config, s: State, t: Directive, a: nat, b: nat, c: string, x: real, y: real)
    requires t.Transaction? && |t.postings| == 2 && Pair(a, b)
    requires var la, lb := PlanLeg(cfg, s.inv, t.postings[a]), PlanLeg(cfg, s.inv, t.postings[b]);
             && la.Good? && lb.Good?
             && var demand := FaceDemand(t.postings[a], la.filled) + FaceDemand(t.postings[b], lb.filled);
             && LegWeight(t.postings[a], la.filled, demand) == [Weight(c, x)]
             && LegWeight(t.postings[b], lb.filled, demand) == [Weight(c, y)]
    ensures Prepare(cfg, s, t).Some?
    ensures ImbalanceReported(Prepare(cfg, s, t).value.diags) <==> Abs(x + y) > Tol(cfg, c)
    ensures PlanLeg(cfg, s.inv, t.postings[b]).op.None? ==>
              Prepare(cfg, s, t).value.ops == OpOf(PlanLeg(cfg, s.inv, t.postings[a]))
  {
    hide PlanLeg, PlanAll, FaceDemand, FaceDemands, LegWeight, Weights, Tol, Unabsorbed, Prepare;
    var ps := t.postings;
    TwoPlanned(cfg, s, t.meta.date, ps);
    var fs := PlanAll(cfg, s, t.meta.date, ps).filled;
    ReportedIsUnabsorbed(cfg, s, t);
    TwoLegs(ps, fs, FaceDemands(ps, fs));
    TwoBalance(cfg, c, x, y);
    TwoBalance(cfg, c, y, x);
    var demand := FaceDemand(ps[a], fs[a]) + FaceDemand(ps[b], fs[b]);
    assert FaceDemands(ps, fs) == demand;
    assert TxnWeights(ps, fs) == if a == 0 then [Weight(c, x), Weight(c, y)] else [Weight(c, y), Weight(c, x)];
  }

  /**
    Cash held at a foreign cost that pays for something in its own currency: its lot is reduced at
    the average, and the transaction is reported unbalanced exactly when the two amounts differ by
    more than the tolerance, whatever the cash cost.
  */
  lemma SpendBalances(cfg: Config, s: State, t: Directive, spend: nat, got: nat, k: Key, u: real, paid: real)
    requires t.Transaction? && |t.postings| == 2 && Pair(spend, got)
    requires var p, q := t.postings[spend], t.postings[got];
             && Sells(cfg, s.inv, p, k, u) && p.price.None? && !ExplicitCost(p)
             && Receives(s.inv, q, paid, k.commodity)
    requires LotComm(s.inv, k) != "" && LotComm(s.inv, k) != k.commodity
    ensures Prepare(cfg, s, t).Some? && Prepare(cfg, s, t).value.ops == [Sale(s.inv, k, u)]
    ensures ImbalanceReported(Prepare(cfg, s, t).value.diags) <==> Abs(paid - u) > Tol(cfg, k.commodity)
  {
    hide PlanLeg, Prepare, Tol, LotAvg, LotComm, CostAt, Sells, Receives;
    var p, q := t.postings[spend], t.postings[got];
    SalePlanned(cfg, s.inv, p, k, u);
    CashPlanned(cfg, s.inv, q, paid, k.commodity);
    SaleFacts(cfg, s.inv, p, q, k, u, paid, k.commodity);
    var demand := FaceDemand(p, SoldLeg(s.inv, p, k, u)) + FaceDemand(q, CashLeg(q, paid, k.commodity));
    assert demand == {k.commodity};
    assert LegWeight(q, CashLeg(q, paid, k.commodity), demand) == [Weight(k.commodity, paid)];
    assert LegWeight(p, SoldLeg(s.inv, p, k, u), demand) == [Weight(k.commodity, -u)];
    TwoBooked(cfg, s, t, spend, got, k.commodity, -u, paid);
  }

  /** A deposit to a lot joins it at its average, and is reported unbalanced exactly when what is taken
      elsewhere differs from its face amount by more than the tolerance, whatever that average; in a lot costed
      in its own commodity it is the cost that counts. */
  lemma DepositBalances(cfg: Config, s: State, t: Directive, deposit: nat, source: nat, k: Key, u: real, taken: real)
    requires t.Transaction? && |t.postings| == 2 && Pair(deposit, source)
    requires var p := t.postings[deposit];
             && p.account == k.account && p.units == Some(RawAmount(Some(u), k.commodity)) && !Blank(k.commodity)
             && u > 0.0 && p.cost.None? && p.price.None?
    requires k in s.inv && s.inv[k].units > 0.0 && s.inv[k].costComm != ""
    requires Receives(s.inv, t.postings[source], -taken, k.commodity)
    ensures Prepare(cfg, s, t).Some?
    ensures Prepare(cfg, s, t).value.ops == [InvOp(true, k, u, CostAt(u, s.inv[k].Avg()), s.inv[k].costComm)]
    ensures var counts := if s.inv[k].costComm == k.commodity then CostAt(u, s.inv[k].Avg()) else u;
            ImbalanceReported(Prepare(cfg, s, t).value.diags) <==> Abs(counts - taken) > Tol(cfg, k.commodity)
  {
    hide PlanLeg, Prepare, Blank, CostAt, Tol, FaceDemand, LegWeight, Receives;
    var p, q := t.postings[deposit], t.postings[source];
    CashPlanned(cfg, s.inv, q, -taken, k.commodity);
    DepositAtFace(cfg, s.inv, p, k, u, {});
    var demand := FaceDemand(p, PlanLeg(cfg, s.inv, p).filled) + FaceDemand(q, CashLeg(q, -taken, k.commodity));
    DepositAtFace(cfg, s.inv, p, k, u, demand);
    BareLeg(s.inv, q, -taken, k.commodity, demand);
    TwoBooked(cfg, s, t, deposit, source, k.commodity, Worthwhile(s.inv[k], k.commodity, u), -taken);
  }

  /** What a price says u units are worth. */
  function Worth(price: PriceSpec, u: real): real
    requires price.number.Some?
  {
    if price.total then Abs(price.number.value) else CostAt(u, price.number.value)
  }

  /** Selling at a price what is not held at cost moves no lot, and is reported unbalanced exactly when
      the cash differs from the price's worth by more than the tolerance of its commodity. */
  lemma PricedSaleBalances(cfg: Config, s: State, t: Directive, sale: nat, money: nat, k: Key, u: real, cash: real)
    requires t.Transaction? && |t.postings| == 2 && Pair(sale, money)
    requires var p := t.postings[sale];
             && p.account == k.account && p.units == Some(RawAmount(Some(-u), k.commodity)) && !Blank(k.commodity)
             && u > 0.0 && p.cost.None? && !HasPosition(s.inv, k) && p.price.Some? && p.price.value.number.Some?
             && Receives(s.inv, t.postings[money], cash, p.price.value.commodity)
    ensures Prepare(cfg, s, t).Some? && Prepare(cfg, s, t).value.ops == []
    ensures var price := t.postings[sale].price.value;
            ImbalanceReported(Prepare(cfg, s, t).value.diags) <==>
            Abs(cash - Worth(price, u)) > Tol(cfg, price.commodity)
  {
    hide PlanLeg, Prepare, FaceDemand, Blank, CostAt, Tol, PostingWeight, Receives;
    var p, q := t.postings[sale], t.postings[money];
    var c := p.price.value.commodity;
    ReductionWithoutLot(cfg, s.inv, p, k, u);
    CashPlanned(cfg, s.inv, q, cash, c);
    var demand := FaceDemand(p, PlanLeg(cfg, s.inv, p).filled) + FaceDemand(q, CashLeg(q, cash, c));
    BareLeg(s.inv, q, cash, c, demand);
    assert LegWeight(p, PlanLeg(cfg, s.inv, p).filled, demand) == [Weight(c, -Worth(p.price.value, u))];
    TwoBooked(cfg, s, t, sale, money, c, -Worth(p.price.value, u), cash);
  }

  lemma BareLeg(inv: Inventory, q: Posting, cash: real, c: string, demand: set<string>)
    requires Receives(inv, q, cash, c)
    ensures LegWeight(q, CashLeg(q, cash, c), demand) == [Weight(c, cash)]
  {
    hide Blank;
  }

  // ----- which currencies are demanded in face terms

  /** The leg weighs in c and is no reduction at cost. */
  predicate DemandsIn(p: Posting, fp: Filled, c: string) {
    && p.units.Some? && fp.units.Some? && c != ""
    && !(fp.units.value.number < 0.0 && fp.costBasis.Some?)
    && PostingWeight(p, fp.units.value, fp.costBasis).commodity == c
  }

  lemma {:induction false} DemandedExactly(ps: seq<Posting>, fs: seq<Filled>, c: string)
    requires |ps| == |fs|
    ensures c in FaceDemands(ps, fs) <==> exists i | 0 <= i < |ps| :: DemandsIn(ps[i], fs[i], c)
  {
    hide PostingWeight;
    if ps != [] {
      var n := |ps| - 1;
      DemandedExactly(ps[..n], fs[..n], c);
      DemandOf(ps[n], fs[n], c);
      assert forall i | 0 <= i < n :: ps[..n][i] == ps[i] && fs[..n][i] == fs[i];
    }
  }

  lemma DemandOf(p: Posting, fp: Filled, c: string)
    ensures c in FaceDemand(p, fp) <==> DemandsIn(p, fp, c)
  {
  }

  /** Cash taken out of a lot of a foreign cost, without price and braces, weighs at face exactly when some leg
      that is no reduction at cost weighs in its currency; otherwise it weighs at its cost. */
  lemma {:induction false} SpentAtFaceExactly(
      inv: Inventory, ps: seq<Posting>, fs: seq<Filled>, i: nat, k: Key, u: real)
    requires |ps| == |fs| && i < |ps| && fs[i] == SoldLeg(inv, ps[i], k, u) && u > 0.0
    requires ps[i].units.Some? && ps[i].price.None? && !ExplicitCost(ps[i])
    requires LotComm(inv, k) != "" && LotComm(inv, k) != k.commodity && k.commodity != ""
    ensures LegWeight(ps[i], fs[i], FaceDemands(ps, fs)) ==
            if exists j | 0 <= j < |ps| :: DemandsIn(ps[j], fs[j], k.commodity) then [Weight(k.commodity, -u)]
            else [Weight(LotComm(inv, k), -CostAt(u, LotAvg(inv, k)))]
  {
    hide FaceDemands, DemandsIn, LotAvg, CostAt, LotComm;
    DemandedExactly(ps, fs, k.commodity);
  }

  // ----- what goes into lots is what their legs weigh

  /** The move of a posting on a lot costed in some commodity. */
  predicate MovesCosted(cfg: Config, inv: Inventory, p: Posting) {
    var leg := PlanLeg(cfg, inv, p);
    leg.Good? && leg.op.Some? && leg.op.value.costComm != ""
  }

  /** The weights of the legs that move lots at a cost. */
  function InventoryWeights(cfg: Config, inv: Inventory, ps: seq<Posting>, demand: set<string>): seq<Weight> {
    if ps == [] then []
    else
      var p := ps[|ps| - 1];
      InventoryWeights(cfg, inv, ps[..|ps| - 1], demand) +
      if MovesCosted(cfg, inv, p) then LegWeight(p, PlanLeg(cfg, inv, p).filled, demand) else []
  }

  /** What a move puts into the lots costed in c; negative for what it takes out. */
  function CostIn(op: InvOp, c: string): real {
    if op.costComm != c then 0.0 else if op.buy then op.total else -op.total
  }

  /** What the moves put into the lots costed in c, less what they take out. */
  function CostMoved(ops: seq<InvOp>, c: string): real {
    if ops == [] then 0.0 else CostMoved(ops[..|ops| - 1], c) + CostIn(ops[|ops| - 1], c)
  }

  /** The posting moves cash of a foreign cost that weighs at face value. */
  predicate AtFace(cfg: Config, inv: Inventory, p: Posting, demand: set<string>) {
    && MovesCosted(cfg, inv, p) && PlanLeg(cfg, inv, p).filled.units.Some?
    && CashFaceWeight(p, PlanLeg(cfg, inv, p).filled.units.value, PlanLeg(cfg, inv, p).filled.costBasis, demand)
  }

  /** What the cash at face value weighs in c beyond the cost it moves there. */
  function FaceOver(cfg: Config, inv: Inventory, ps: seq<Posting>, demand: set<string>, c: string): real {
    if ps == [] then 0.0
    else
      var p := ps[|ps| - 1];
      var leg := PlanLeg(cfg, inv, p);
      FaceOver(cfg, inv, ps[..|ps| - 1], demand, c) +
      if !AtFace(cfg, inv, p, demand) then 0.0
      else (if leg.filled.units.value.commodity == c then leg.filled.units.value.number else 0.0)
           - CostIn(leg.op.value, c)
  }

  lemma SumForConcat(ws: seq<Weight>, w: Weight, c: string)
    ensures SumFor(ws + [w], c) == SumFor(ws, c) + (if w.commodity == c then w.amount else 0.0)
    ensures SumFor(ws + [], c) == SumFor(ws, c)
  {
    SumForSnoc(ws, w, c);
    assert ws + [] == ws;
  }

  lemma CostMovedSnoc(ops: seq<InvOp>, op: InvOp, c: string)
    ensures CostMoved(ops + [op], c) == CostMoved(ops, c) + CostIn(op, c)
  {
    assert (ops + [op])[..|ops|] == ops;
  }

  /**
    Cost is conserved: in every commodity, the weights of a transaction's inventory legs sum to the
    cost its planned moves put into lots less the cost they take out, except that cash of a foreign
    cost at face value brings in its face amount in place of its cost.
  */
  lemma {:induction false} CostIsWeighed(
      cfg: Config, s: State, date: Date, ps: seq<Posting>, demand: set<string>, c: string)
    requires c != ""
    ensures var plan := PlanAll(cfg, s, date, ps);
            plan.Planned? ==>
              SumFor(InventoryWeights(cfg, s.inv, ps, demand), c)
              == CostMoved(plan.ops, c) + FaceOver(cfg, s.inv, ps, demand, c)
  {
    hide PlanLeg, CheckAccount, LegWeight, CashFaceWeight, SumFor, CostMoved;
    if ps == [] {
      NothingMoved(c);
    } else {
      var n := |ps| - 1;
      CostIsWeighed(cfg, s, date, ps[..n], demand, c);
      var before, leg := PlanAll(cfg, s, date, ps[..n]), PlanLeg(cfg, s.inv, ps[n]);
      var ws := InventoryWeights(cfg, s.inv, ps[..n], demand);
      SumForConcat(ws, Weight("", 0.0), c);
      if before.Planned? && leg.Good? && leg.op.Some? {
        CostMovedSnoc(before.ops, leg.op.value, c);
        if leg.op.value.costComm != "" {
          InventoryWeighsItsCost(cfg, s.inv, ps[n], demand);
          SumForConcat(ws, LegWeight(ps[n], leg.filled, demand)[0], c);
        }
      }
    }
  }

  lemma NothingMoved(c: string)
    ensures SumFor([], c) == 0.0 == CostMoved([], c)
  {
  }
}
