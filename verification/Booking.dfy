/**
  What booking a directive does, as functions on the engine's state. The class Engine (in
  EngineLoops.dfy) runs the program's loops and is proved to compute exactly these functions; the
  theorems of the other files are about them.
*/
module Booking {
  import opened Ast
  import opened Names

  /** Tolerance policy: a default (nil allowed) and per-commodity overrides. */
  datatype Config = Config(tolerance: Option<real>, commTol: map<string, real>)

  const DEFAULT_TOLERANCE: real := 5.0 / 1000000.0

  /** The configuration of a fresh engine. */
  const FRESH: Config := Config(Some(DEFAULT_TOLERANCE), map[])

  /** Average-cost inventory of one account and commodity. */
  datatype Position = Position(units: real, totalCost: real, costComm: string) {
    function Avg(): real {
      if units == 0.0 then 0.0 else totalCost / units
    }
  }

  type Inventory = map<Key, Position>

  type Balances = map<Key, real>

  datatype Filled = Filled(account: string, units: Option<Amount>, costBasis: Option<Amount>, closing: bool)

  /** A journal line. A line made by a pad carries no postings of its own. */
  datatype BookedTxn = BookedTxn(meta: Meta, flag: string, postings: seq<Posting>, filled: seq<Filled>)

  datatype PendingPad = PendingPad(meta: Meta, fromAccount: string)

  datatype Diag =
    | NotOpened(account: string)
    | BeforeOpen(account: string)
    | AfterClose(account: string)
    | DuplicateOpen(account: string)
    | MultipleResidual
    | MissingNumber(account: string)
    | MissingCommodity(account: string)
    | BuyNeedsCost(account: string, commodity: string)
    | SellCostMismatch(account: string, commodity: string)
    | Unbalanced(commodity: string, residual: real)
    | Oversell
    | CostCommodityMismatch(account: string, commodity: string)
    | NoPosition(account: string, commodity: string)
    | BalanceFailed(meta: Meta, account: string, expected: Amount, actual: real)
  {
    predicate IsError() {
      !NotOpened? && !Oversell? && !NoPosition?
    }
  }

  /** The order of diagnostics is not kept: two loops that emit them range over hash maps. */
  type Diags = multiset<Diag>

  datatype State = State(
    inv: Inventory,
    bal: Balances,
    open: map<string, Date>,
    close: map<string, Date>,
    pad: map<string, PendingPad>,
    txns: seq<BookedTxn>,
    diags: Diags)

  const EMPTY: State := State(map[], map[], map[], map[], map[], [], multiset{})

  function Tol(cfg: Config, comm: string): real {
    if comm in cfg.commTol then cfg.commTol[comm]
    else if cfg.tolerance.Some? then cfg.tolerance.value
    else DEFAULT_TOLERANCE
  }

  function BalOf(bal: Balances, k: Key): real {
    if k in bal then bal[k] else 0.0
  }

  function AddBal(bal: Balances, k: Key, n: real): Balances {
    bal[k := BalOf(bal, k) + n]
  }

  function UnitsOf(inv: Inventory, k: Key): real {
    if k in inv then inv[k].units else 0.0
  }

  predicate HasPosition(inv: Inventory, k: Key) {
    k in inv && inv[k].units != 0.0
  }

  /** Average cost and cost commodity of a lot; zero and none for an empty one. */
  function LotAvg(inv: Inventory, k: Key): real {
    if HasPosition(inv, k) then inv[k].Avg() else 0.0
  }

  function CostAt(units: real, unitCost: real): real {
    units * unitCost
  }

  function LotComm(inv: Inventory, k: Key): string {
    if HasPosition(inv, k) then inv[k].costComm else ""
  }

  function CheckAccount(s: State, date: Date, account: string): Diags {
    (if account !in s.open then multiset{NotOpened(account)}
     else if date < s.open[account] then multiset{BeforeOpen(account)}
     else multiset{}) +
    (if account in s.close && date >= s.close[account] then multiset{AfterClose(account)} else multiset{})
  }

  // ----- planning one posting

  /** A planned inventory move; units is a positive magnitude. */
  datatype InvOp = InvOp(buy: bool, key: Key, units: real, total: real, costComm: string)

  datatype Leg =
    | Residual
    | Bad(diag: Diag)
    | Good(filled: Filled, op: Option<InvOp>)

  /** Unit cost and its commodity for an increase: braces win over a price. */
  function ResolveIncreaseCost(p: Posting, units: real): Option<Amount> {
    if p.cost.Some? && !p.cost.value.empty && p.cost.value.number.Some? then
      Some(Amount(p.cost.value.number.value, p.cost.value.commodity))
    else if p.price.None? || p.price.value.number.None? || Blank(p.price.value.commodity) then None
    else if units == 0.0 then None
    else if p.price.value.total then
      Some(Amount(Abs(p.price.value.number.value) / Abs(units), p.price.value.commodity))
    else Some(Amount(p.price.value.number.value, p.price.value.commodity))
  }

  /** The basis an increase is booked at: its own cost, else the average of the lot it joins. */
  function IncreaseBasis(inv: Inventory, p: Posting, k: Key, units: real): Option<Amount> {
    var own := ResolveIncreaseCost(p, units);
    if own.Some? then own
    else if k in inv && inv[k].units > 0.0 && inv[k].costComm != "" then Some(Amount(inv[k].Avg(), inv[k].costComm))
    else None
  }

  predicate ExplicitCost(p: Posting) {
    p.cost.Some? && !p.cost.value.empty
  }

  predicate MovesInventory(inv: Inventory, p: Posting, k: Key, units: real) {
    p.cost.Some? || HasPosition(inv, k) || (units > 0.0 && ResolveIncreaseCost(p, units).Some?)
  }

  function PlanLeg(cfg: Config, inv: Inventory, p: Posting): Leg {
    if p.units.None? then Residual
    else if p.units.value.number.None? then Bad(MissingNumber(p.account))
    else if Blank(p.units.value.commodity) then Bad(MissingCommodity(p.account))
    else
      var units, comm := p.units.value.number.value, p.units.value.commodity;
      var k := Key(p.account, comm);
      var bare := Filled(p.account, Some(Amount(units, comm)), None, p.closing);
      if !MovesInventory(inv, p, k, units) || units == 0.0 then Good(bare, None)
      else if units > 0.0 then PlanBuy(inv, p, k, units, bare)
      else PlanSell(cfg, inv, p, k, -units, bare)
  }

  function PlanBuy(inv: Inventory, p: Posting, k: Key, units: real, bare: Filled): Leg {
    var basis := IncreaseBasis(inv, p, k, units);
    if basis.None? then Bad(BuyNeedsCost(p.account, k.commodity))
    else
      var total := CostAt(units, basis.value.number);
      Good(bare.(costBasis := Some(Amount(total, basis.value.commodity))),
           Some(InvOp(true, k, units, total, basis.value.commodity)))
  }

  function PlanSell(cfg: Config, inv: Inventory, p: Posting, k: Key, units: real, bare: Filled): Leg {
    var avg, comm := LotAvg(inv, k), LotComm(inv, k);
    if ExplicitCost(p) && p.cost.value.number.Some? && HasPosition(inv, k)
       && Abs(p.cost.value.number.value - avg) > Tol(cfg, k.commodity)
    then Bad(SellCostMismatch(p.account, k.commodity))
    else
      Good(bare.(costBasis := Some(Amount(-CostAt(units, avg), comm))),
           Some(InvOp(false, k, units, CostAt(units, avg), comm)))
  }

  // ----- phase 1: all postings

  datatype Plan =
    | Aborted(diags: Diags)
    | Planned(filled: seq<Filled>, ops: seq<InvOp>, residual: Option<nat>, diags: Diags)

  function PlanNext(cfg: Config, s: State, date: Date, p: Posting, plan: Plan): Plan {
    match plan
    case Aborted(_) => plan
    case Planned(filled, ops, residual, diags) =>
      var diags' := diags + CheckAccount(s, date, p.account);
      match PlanLeg(cfg, s.inv, p)
      case Residual =>
        if residual.Some? then Aborted(diags' + multiset{MultipleResidual})
        else Planned(filled + [Filled(p.account, None, None, p.closing)], ops, Some(|filled|), diags')
      case Bad(diag) => Aborted(diags' + multiset{diag})
      case Good(fp, op) =>
        Planned(filled + [fp], if op.Some? then ops + [op.value] else ops, residual, diags')
  }

  function PlanAll(cfg: Config, s: State, date: Date, ps: seq<Posting>): Plan {
    if ps == [] then Planned([], [], None, multiset{})
    else PlanNext(cfg, s, date, ps[|ps| - 1], PlanAll(cfg, s, date, ps[..|ps| - 1]))
  }

  // ----- phase 1b: weights

  datatype Weight = Weight(commodity: string, amount: real)

  function PostingWeight(p: Posting, units: Amount, basis: Option<Amount>): Weight {
    if basis.Some? && basis.value.commodity != "" then Weight(basis.value.commodity, basis.value.number)
    else if ExplicitCost(p) && p.cost.value.number.Some? then
      Weight(p.cost.value.commodity, units.number * p.cost.value.number.value)
    else if p.price.Some? && p.price.value.number.Some? then
      var n := p.price.value.number.value;
      Weight(p.price.value.commodity,
             if !p.price.value.total then units.number * n
             else if units.number < 0.0 then -Abs(n) else Abs(n))
    else Weight(units.commodity, units.number)
  }

  /** The currency a posting demands in face terms, if any. */
  function FaceDemand(p: Posting, fp: Filled): set<string> {
    if p.units.None? || fp.units.None? then {}
    else
      var units := fp.units.value;
      if units.number > 0.0 && fp.costBasis.Some? && fp.costBasis.value.commodity != "" then
        {fp.costBasis.value.commodity}
      else if units.number < 0.0 && fp.costBasis.Some? then {}
      else
        var w := PostingWeight(p, units, fp.costBasis);
        if w.commodity != "" then {w.commodity} else {}
  }

  function FaceDemands(ps: seq<Posting>, filled: seq<Filled>): set<string>
    requires |ps| == |filled|
  {
    if ps == [] then {}
    else
      var n := |ps| - 1;
      FaceDemands(ps[..n], filled[..n]) + FaceDemand(ps[n], filled[n])
  }

  predicate CashFaceWeight(p: Posting, units: Amount, basis: Option<Amount>, demand: set<string>) {
    && basis.Some? && basis.value.commodity != "" && basis.value.commodity != units.commodity
    && p.price.None?
    && !ExplicitCost(p)
    && (units.number > 0.0 || units.commodity in demand)
  }

  /** The weight of one leg; the residual leg has none. */
  function LegWeight(p: Posting, fp: Filled, demand: set<string>): seq<Weight> {
    if p.units.None? || fp.units.None? then []
    else if CashFaceWeight(p, fp.units.value, fp.costBasis, demand) then
      [Weight(fp.units.value.commodity, fp.units.value.number)]
    else [PostingWeight(p, fp.units.value, fp.costBasis)]
  }

  function Weights(ps: seq<Posting>, filled: seq<Filled>, demand: set<string>): seq<Weight>
    requires |ps| == |filled|
  {
    if ps == [] then []
    else
      var n := |ps| - 1;
      Weights(ps[..n], filled[..n], demand) + LegWeight(ps[n], filled[n], demand)
  }

  function SumFor(ws: seq<Weight>, c: string): real {
    if ws == [] then 0.0
    else SumFor(ws[..|ws| - 1], c) + (if ws[|ws| - 1].commodity == c then ws[|ws| - 1].amount else 0.0)
  }

  lemma SumForSnoc(ws: seq<Weight>, w: Weight, c: string)
    ensures SumFor(ws + [w], c) == SumFor(ws, c) + (if w.commodity == c then w.amount else 0.0)
  {
    assert (ws + [w])[..|ws|] == ws;
  }

  function Commodities(ws: seq<Weight>): set<string> {
    set w | w in ws :: w.commodity
  }

  /** The commodities left over beyond tolerance. */
  function Unabsorbed(cfg: Config, ws: seq<Weight>): set<string> {
    set c | c in Commodities(ws) && Abs(SumFor(ws, c)) > Tol(cfg, c)
  }

  function UnbalancedDiags(cfg: Config, ws: seq<Weight>): Diags {
    multiset(set c | c in Unabsorbed(cfg, ws) :: Unbalanced(c, SumFor(ws, c)))
  }

  // ----- the residual leg

  function ResidualCommodities(cfg: Config, ws: seq<Weight>): set<string> {
    set c | c in Unabsorbed(cfg, ws) && SumFor(ws, c) != 0.0
  }

  function ResidualLeg(fp: Filled, ws: seq<Weight>, c: string): Filled {
    Filled(fp.account, Some(Amount(-SumFor(ws, c), c)), None, fp.closing)
  }

  function ResidualLegs(fp: Filled, ws: seq<Weight>, cs: seq<string>): (r: seq<Filled>)
    ensures |r| == |cs| && forall i | 0 <= i < |cs| :: r[i] == ResidualLeg(fp, ws, cs[i])
  {
    if cs == [] then []
    else ResidualLegs(fp, ws, cs[..|cs| - 1]) + [ResidualLeg(fp, ws, cs[|cs| - 1])]
  }

  /** The residual leg becomes one leg per left-over commodity, or a zero amount of none. */
  ghost function FillResidual(cfg: Config, filled: seq<Filled>, r: nat, ws: seq<Weight>): seq<Filled>
    requires r < |filled|
  {
    var cs := Listing(ResidualCommodities(cfg, ws));
    if cs == [] then filled[r := filled[r].(units := Some(Amount(0.0, "")))]
    else filled[..r] + ResidualLegs(filled[r], ws, cs) + filled[r + 1..]
  }

  predicate OpMatches(op: InvOp, k: Key, units: real) {
    op.key == k && ((units < 0.0 && !op.buy && op.units == -units) || (units > 0.0 && op.buy && op.units == units))
  }

  /** A move of this size on this lot is planned already. */
  predicate AlreadyPlanned(ops: seq<InvOp>, k: Key, units: real) {
    exists i | 0 <= i < |ops| :: OpMatches(ops[i], k, units)
  }

  /** The inventory move of one filled leg that phase 1 did not plan. */
  function ResidualOp(inv: Inventory, fp: Filled, ops: seq<InvOp>): seq<InvOp> {
    if fp.units.None? || fp.units.value.number == 0.0 then []
    else
      var units, k := fp.units.value.number, Key(fp.account, fp.units.value.commodity);
      if !HasPosition(inv, k) || AlreadyPlanned(ops, k, units) then []
      else if units < 0.0 then [InvOp(false, k, -units, CostAt(-units, LotAvg(inv, k)), LotComm(inv, k))]
      else if LotComm(inv, k) != "" then [InvOp(true, k, units, CostAt(units, LotAvg(inv, k)), LotComm(inv, k))]
      else []
  }

  function ResidualOps(inv: Inventory, filled: seq<Filled>, ops: seq<InvOp>): seq<InvOp> {
    if filled == [] then ops
    else
      var ops' := ResidualOps(inv, filled[..|filled| - 1], ops);
      ops' + ResidualOp(inv, filled[|filled| - 1], ops')
  }

  // ----- phases 2 and 3: inventory

  /** Units bought, or sold, by the moves on one lot. */
  function Net(ops: seq<InvOp>, k: Key, buy: bool): real {
    if ops == [] then 0.0
    else
      var op := ops[|ops| - 1];
      Net(ops[..|ops| - 1], k, buy) + (if op.key == k && op.buy == buy then op.units else 0.0)
  }

  predicate LotOversold(inv: Inventory, ops: seq<InvOp>, k: Key) {
    Net(ops, k, false) > 0.0 && Net(ops, k, false) > UnitsOf(inv, k) + Net(ops, k, true)
  }

  predicate Oversold(inv: Inventory, ops: seq<InvOp>) {
    exists i | 0 <= i < |ops| :: !ops[i].buy && LotOversold(inv, ops, ops[i].key)
  }

  predicate BuyMismatch(inv: Inventory, op: InvOp) {
    op.key in inv && inv[op.key].costComm != "" && inv[op.key].costComm != op.costComm && inv[op.key].units != 0.0
  }

  function Buy(inv: Inventory, op: InvOp): Inventory {
    var pos := if op.key in inv then inv[op.key] else Position(0.0, 0.0, op.costComm);
    inv[op.key := Position(pos.units + op.units, pos.totalCost + op.total, op.costComm)]
  }

  function Sell(inv: Inventory, op: InvOp): Inventory
    requires op.key in inv
  {
    var pos := inv[op.key];
    var units := pos.units - op.units;
    inv[op.key := Position(units, if units == 0.0 then 0.0 else pos.totalCost - op.total, pos.costComm)]
  }

  /** Inventory after a pass over the moves, and the error that stopped the pass, if one did. */
  datatype Pass = Pass(inv: Inventory, stop: Option<Diag>)

  function BuyPass(inv: Inventory, ops: seq<InvOp>): Pass {
    if ops == [] then Pass(inv, None)
    else
      var r, op := BuyPass(inv, ops[..|ops| - 1]), ops[|ops| - 1];
      if r.stop.Some? || !op.buy then r
      else if BuyMismatch(r.inv, op) then Pass(r.inv, Some(CostCommodityMismatch(op.key.account, op.key.commodity)))
      else Pass(Buy(r.inv, op), None)
  }

  function SellPass(inv: Inventory, ops: seq<InvOp>): Pass {
    if ops == [] then Pass(inv, None)
    else
      var r, op := SellPass(inv, ops[..|ops| - 1]), ops[|ops| - 1];
      if r.stop.Some? || op.buy then r
      else if op.key !in r.inv then Pass(r.inv, Some(NoPosition(op.key.account, op.key.commodity)))
      else Pass(Sell(r.inv, op), None)
  }

  /** Buys stop only at a cost mismatch, sells only at a missing lot. */
  lemma {:induction false} PassStops(inv: Inventory, ops: seq<InvOp>)
    ensures var stop := BuyPass(inv, ops).stop; stop.Some? ==> stop.value.CostCommodityMismatch?
    ensures var stop := SellPass(inv, ops).stop; stop.Some? ==> stop.value.NoPosition?
  {
    if ops != [] { PassStops(inv, ops[..|ops| - 1]); }
  }

  // ----- phase 4 and the whole transaction

  function PostLeg(bal: Balances, fp: Filled): Balances {
    if fp.units.None? || fp.units.value.commodity == "" then bal
    else AddBal(bal, Key(fp.account, fp.units.value.commodity), fp.units.value.number)
  }

  function PostAll(bal: Balances, filled: seq<Filled>): Balances {
    if filled == [] then bal
    else PostLeg(PostAll(bal, filled[..|filled| - 1]), filled[|filled| - 1])
  }

  lemma {:induction false} PlanLength(cfg: Config, s: State, date: Date, ps: seq<Posting>)
    ensures var plan := PlanAll(cfg, s, date, ps);
            plan.Planned? ==> |plan.filled| == |ps| && (plan.residual.Some? ==> plan.residual.value < |ps|)
  {
    if ps != [] { PlanLength(cfg, s, date, ps[..|ps| - 1]); }
  }

  lemma PlanTwo(cfg: Config, s: State, date: Date, p: Posting, q: Posting)
    ensures PlanAll(cfg, s, date, [p, q])
         == PlanNext(cfg, s, date, q, PlanNext(cfg, s, date, p, Planned([], [], None, multiset{})))
  {
    assert [p, q][..1] == [p] && [p][..0] == [];
    assert PlanAll(cfg, s, date, [p]) == PlanNext(cfg, s, date, p, PlanAll(cfg, s, date, []));
  }

  lemma PostTwo(bal: Balances, x: Filled, y: Filled)
    ensures PostAll(bal, [x, y]) == PostLeg(PostLeg(bal, x), y)
  {
    assert [x, y][..1] == [x] && [x][..0] == [];
    assert PostAll(bal, [x]) == PostLeg(PostAll(bal, []), x);
  }

  function TxnWeights(ps: seq<Posting>, filled: seq<Filled>): seq<Weight>
    requires |ps| == |filled|
  {
    Weights(ps, filled, FaceDemands(ps, filled))
  }

  /** What a planned transaction will book: its legs, its inventory moves, its diagnostics. */
  datatype Ready = Ready(filled: seq<Filled>, ops: seq<InvOp>, diags: Diags)

  ghost function Balanced(cfg: Config, inv: Inventory, ps: seq<Posting>, plan: Plan): Ready
    requires plan.Planned? && |plan.filled| == |ps| && (plan.residual.Some? ==> plan.residual.value < |ps|)
  {
    var ws := TxnWeights(ps, plan.filled);
    if plan.residual.Some? then
      var filled := FillResidual(cfg, plan.filled, plan.residual.value, ws);
      Ready(filled, ResidualOps(inv, filled, plan.ops), plan.diags)
    else Ready(plan.filled, plan.ops, plan.diags + UnbalancedDiags(cfg, ws))
  }

  ghost function Prepare(cfg: Config, s: State, t: Directive): (r: Option<Ready>)
    requires t.Transaction?
  {
    PlanLength(cfg, s, t.meta.date, t.postings);
    var plan := PlanAll(cfg, s, t.meta.date, t.postings);
    if plan.Aborted? then None else Some(Balanced(cfg, s.inv, t.postings, plan))
  }

  function Report(s: State, diags: Diags): State {
    s.(diags := s.diags + diags)
  }

  /** Phases 2 and 3: the oversell check, then all buys, then all sells. */
  function Move(inv: Inventory, ops: seq<InvOp>): Pass {
    if Oversold(inv, ops) then Pass(inv, Some(Oversell))
    else
      var bought := BuyPass(inv, ops);
      if bought.stop.Some? then bought else SellPass(bought.inv, ops)
  }

  /** Phases 2 to 4 on a prepared transaction. */
  function Commit(s: State, t: Directive, ready: Ready): State
    requires t.Transaction?
  {
    var moved := Move(s.inv, ready.ops);
    if moved.stop.Some? then Report(s.(inv := moved.inv), ready.diags + multiset{moved.stop.value})
    else
      Report(s, ready.diags).(
        inv := moved.inv,
        bal := PostAll(s.bal, ready.filled),
        txns := s.txns + [BookedTxn(t.meta, t.flag, t.postings, ready.filled)])
  }

  ghost function BookTxn(cfg: Config, s: State, t: Directive): State
    requires t.Transaction?
  {
    var plan := PlanAll(cfg, s, t.meta.date, t.postings);
    if plan.Aborted? then Report(s, plan.diags)
    else Commit(s, t, Prepare(cfg, s, t).value)
  }

  // ----- the other directives

  function BookOpen(s: State, o: Directive): State
    requires o.Open?
  {
    if o.account in s.open then Report(s, multiset{DuplicateOpen(o.account)})
    else s.(open := s.open[o.account := o.meta.date])
  }

  function BookClose(s: State, c: Directive): State
    requires c.Close?
  {
    s.(close := s.close[c.account := c.meta.date])
  }

  function BookPad(s: State, p: Directive): State
    requires p.Pad?
  {
    s.(pad := s.pad[p.account := PendingPad(p.meta, p.fromAccount)])
  }

  predicate Holds(cfg: Config, s: State, b: Directive)
    requires b.Balance?
  {
    Abs(b.amount.number - BalOf(s.bal, Key(b.account, b.amount.commodity))) <= Tol(cfg, b.amount.commodity)
  }

  /** A balance that does not hold and finds a pad pending on its account. */
  predicate Fires(cfg: Config, s: State, b: Directive)
    requires b.Balance?
  {
    !Holds(cfg, s, b) && b.account in s.pad
  }

  function Shortfall(s: State, b: Directive): real
    requires b.Balance?
  {
    b.amount.number - BalOf(s.bal, Key(b.account, b.amount.commodity))
  }

  function Failure(s: State, b: Directive): Diags
    requires b.Balance?
  {
    multiset{BalanceFailed(b.meta, b.account, b.amount, BalOf(s.bal, Key(b.account, b.amount.commodity)))}
  }

  /** The journal line of a pad that fires: dated at the pad, two opposite legs. */
  function PadLine(pad: PendingPad, b: Directive, diff: real): BookedTxn
    requires b.Balance?
  {
    var comm := b.amount.commodity;
    BookedTxn(pad.meta, "P", [], [
      Filled(b.account, Some(Amount(diff, comm)), None, false),
      Filled(pad.fromAccount, Some(Amount(-diff, comm)), None, false)])
  }

  function FirePad(s: State, b: Directive): State
    requires b.Balance? && b.account in s.pad
  {
    var pad, comm, diff := s.pad[b.account], b.amount.commodity, Shortfall(s, b);
    s.(diags := s.diags + CheckAccount(s, b.meta.date, pad.fromAccount),
       bal := AddBal(AddBal(s.bal, Key(b.account, comm), diff), Key(pad.fromAccount, comm), -diff),
       txns := s.txns + [PadLine(pad, b, diff)],
       pad := s.pad - {b.account})
  }

  function BookBalance(cfg: Config, s: State, b: Directive): State
    requires b.Balance?
  {
    if Holds(cfg, s, b) then s.(pad := s.pad - {b.account})
    else if b.account in s.pad then
      var s' := FirePad(s, b);
      if Holds(cfg, s', b) then s' else Report(s', Failure(s', b))
    else Report(s, Failure(s, b))
  }

  /** A transaction touches lots, balances, journal and diagnostics only; diagnostics grow. */
  lemma TxnFrame(cfg: Config, s: State, t: Directive)
    requires t.Transaction?
    ensures var s' := BookTxn(cfg, s, t);
            s' == s.(inv := s'.inv, bal := s'.bal, txns := s'.txns, diags := s'.diags) && s.diags <= s'.diags
  {
    hide PlanAll, Prepare, Move, PostAll;
    assert PlanAll(cfg, s, t.meta.date, t.postings).Aborted? || Prepare(cfg, s, t).Some? by { PrepareSome(cfg, s, t); }
  }

  lemma PrepareSome(cfg: Config, s: State, t: Directive)
    requires t.Transaction?
    ensures Prepare(cfg, s, t).None? <==> PlanAll(cfg, s, t.meta.date, t.postings).Aborted?
  {
    hide PlanAll;
  }

  /** A balance moves what its pad moves, if one fires; otherwise at most pads and diagnostics. */
  lemma BalanceShape(cfg: Config, s: State, b: Directive)
    requires b.Balance?
    ensures var s' := BookBalance(cfg, s, b);
            if Fires(cfg, s, b) then s' == FirePad(s, b).(diags := s'.diags)
            else s' == s.(pad := s.pad - {b.account}, diags := s'.diags)
  {
    assert b.account !in s.pad ==> s.pad - {b.account} == s.pad;
  }

  ghost function Apply(cfg: Config, s: State, d: Directive): State {
    match d
    case Open(_, _, _, _) => BookOpen(s, d)
    case Close(_, _) => BookClose(s, d)
    case Transaction(_, _, _) => BookTxn(cfg, s, d)
    case Balance(_, _, _) => BookBalance(cfg, s, d)
    case Pad(_, _, _) => BookPad(s, d)
    case _ => s
  }

  ghost function Run(cfg: Config, s: State, ds: seq<Directive>): State {
    if ds == [] then s else Apply(cfg, Run(cfg, s, ds[..|ds| - 1]), ds[|ds| - 1])
  }

  lemma BalanceGrows(cfg: Config, s: State, b: Directive)
    requires b.Balance?
    ensures s.diags <= BookBalance(cfg, s, b).diags
  {
    hide Holds, CheckAccount, Failure;
    if b.account in s.pad { FireGrows(s, b); }
  }

  lemma FireGrows(s: State, b: Directive)
    requires b.Balance? && b.account in s.pad
    ensures s.diags <= FirePad(s, b).diags
  {
    hide CheckAccount;
  }

  /** Nothing takes a diagnostic back. */
  lemma StepGrows(cfg: Config, s: State, d: Directive)
    ensures s.diags <= Apply(cfg, s, d).diags
  {
    hide BookBalance, BookTxn;
    match d
    case Transaction(_, _, _) => TxnFrame(cfg, s, d);
    case Balance(_, _, _) => BalanceGrows(cfg, s, d);
    case _ =>
  }

  lemma {:induction false} RunConcat(cfg: Config, s: State, p: seq<Directive>, q: seq<Directive>)
    ensures Run(cfg, s, p + q) == Run(cfg, Run(cfg, s, p), q)
  {
    if q == [] {
      assert p + q == p;
    } else {
      assert (p + q)[..|p + q| - 1] == p + q[..|q| - 1];
      RunConcat(cfg, s, p, q[..|q| - 1]);
    }
  }
}
