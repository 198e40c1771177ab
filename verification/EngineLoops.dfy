/** The booking engine as the program runs it, proved to compute the functions of Booking. */
module EngineLoops {
  import opened Ast
  import opened Names
  import opened Ordering
  import opened Booking
  import Pads
  import Sorting

  // ----- facts that carry a loop from one step to the next

  lemma PlanPrefix(cfg: Config, s: State, date: Date, ps: seq<Posting>, i: nat)
    requires i < |ps|
    ensures PlanAll(cfg, s, date, ps[..i + 1]) == PlanNext(cfg, s, date, ps[i], PlanAll(cfg, s, date, ps[..i]))
  {
    assert ps[..i + 1][..i] == ps[..i];
  }

  lemma {:induction false} PlanStaysAborted(cfg: Config, s: State, date: Date, ps: seq<Posting>, i: nat)
    requires i <= |ps| && PlanAll(cfg, s, date, ps[..i]).Aborted?
    ensures PlanAll(cfg, s, date, ps) == PlanAll(cfg, s, date, ps[..i])
    decreases |ps| - i
  {
    hide PlanAll, PlanLeg;
    if i == |ps| {
      assert ps[..i] == ps;
    } else {
      PlanPrefix(cfg, s, date, ps, i);
      PlanStaysAborted(cfg, s, date, ps, i + 1);
    }
  }

  lemma WeightsPrefix(ps: seq<Posting>, filled: seq<Filled>, demand: set<string>, i: nat)
    requires i < |ps| == |filled|
    ensures Weights(ps[..i + 1], filled[..i + 1], demand)
         == Weights(ps[..i], filled[..i], demand) + LegWeight(ps[i], filled[i], demand)
    ensures FaceDemands(ps[..i + 1], filled[..i + 1])
          == FaceDemands(ps[..i], filled[..i]) + FaceDemand(ps[i], filled[i])
  {
    assert ps[..i + 1][..i] == ps[..i] && filled[..i + 1][..i] == filled[..i];
  }

  /** The map of weights the program sums into. */
  ghost predicate Sums(weights: map<string, real>, ws: seq<Weight>) {
    weights.Keys == Commodities(ws) && forall c | c in weights :: weights[c] == SumFor(ws, c)
  }

  lemma SumsSnoc(weights: map<string, real>, ws: seq<Weight>, w: Weight)
    requires Sums(weights, ws)
    ensures Sums(weights[w.commodity := (if w.commodity in weights then weights[w.commodity] else 0.0) + w.amount],
          ws + [w])
  {
    hide SumFor;
    CommoditiesSnoc(ws, w);
    SumForKnown(ws, w.commodity);
    forall c { SumForSnoc(ws, w, c); }
  }

  lemma CommoditiesSnoc(ws: seq<Weight>, w: Weight)
    ensures Commodities(ws + [w]) == Commodities(ws) + {w.commodity}
  {
    forall c ensures c in Commodities(ws + [w]) <==> c in Commodities(ws) + {w.commodity} {
      if v :| v in ws && v.commodity == c { assert v in ws + [w]; }
      if c == w.commodity { assert w in ws + [w]; }
    }
  }

  lemma {:induction false} SumForKnown(ws: seq<Weight>, c: string)
    ensures c !in Commodities(ws) ==> SumFor(ws, c) == 0.0
  {
    if ws != [] {
      var ws', w := ws[..|ws| - 1], ws[|ws| - 1];
      assert ws == ws' + [w];
      CommoditiesSnoc(ws', w);
      SumForKnown(ws', c);
    }
  }

  // ----- phase 1b: weights

  method FaceDemandOf(ps: seq<Posting>, filled: seq<Filled>) returns (demand: set<string>)
    requires |ps| == |filled|
    ensures demand == FaceDemands(ps, filled)
  {
    hide FaceDemand;
    demand := {};
    for i := 0 to |ps|
      invariant demand == FaceDemands(ps[..i], filled[..i])
    {
      WeightsPrefix(ps, filled, {}, i);
      demand := demand + FaceDemand(ps[i], filled[i]);
    }
    assert ps[..|ps|] == ps && filled[..|ps|] == filled;
  }

  method Weigh(ps: seq<Posting>, filled: seq<Filled>) returns (weights: map<string, real>)
    requires |ps| == |filled|
    ensures Sums(weights, TxnWeights(ps, filled))
  {
    hide LegWeight, FaceDemands, Sums;
    var demand := FaceDemandOf(ps, filled);
    weights := map[];
    assert Sums(weights, []) by { NoSums(); }
    for i := 0 to |ps|
      invariant Sums(weights, Weights(ps[..i], filled[..i], demand))
    {
      WeightsPrefix(ps, filled, demand, i);
      ghost var ws := Weights(ps[..i], filled[..i], demand);
      var more := LegWeight(ps[i], filled[i], demand);
      OneWeight(ps[i], filled[i], demand);
      if more != [] {
        var w := more[0];
        SumsSnoc(weights, ws, w);
        weights := weights[w.commodity := (if w.commodity in weights then weights[w.commodity] else 0.0) + w.amount];
        assert ws + more == ws + [w];
      } else {
        assert ws + more == ws;
      }
    }
    assert ps[..|ps|] == ps && filled[..|ps|] == filled;
  }

  lemma NoSums()
    ensures Sums(map[], [])
  {
  }

  lemma OneWeight(p: Posting, fp: Filled, demand: set<string>)
    ensures |LegWeight(p, fp, demand)| <= 1
  {
  }

  // ----- the residual leg

  /** The commodities left over, in order; the program collects them from the map and sorts. */
  method LeftOver(cfg: Config, weights: map<string, real>, ghost ws: seq<Weight>) returns (cs: seq<string>)
    requires Sums(weights, ws)
    ensures cs == Listing(ResidualCommodities(cfg, ws))
  {
    hide SumFor;
    var nonzero := set c | c in weights && weights[c] != 0.0 && Abs(weights[c]) > Tol(cfg, c);
    assert nonzero == ResidualCommodities(cfg, ws);
    cs := List(nonzero);
  }

  method ExpandResidual(cfg: Config, filled: seq<Filled>, r: nat, weights: map<string, real>, ghost ws: seq<Weight>)
    returns (expanded: seq<Filled>)
    requires r < |filled| && Sums(weights, ws)
    ensures expanded == FillResidual(cfg, filled, r, ws)
  {
    hide SumFor, Listing, ResidualCommodities;
    var cs := LeftOver(cfg, weights, ws);
    if cs == [] { return filled[r := filled[r].(units := Some(Amount(0.0, "")))]; }
    ListingLists(ResidualCommodities(cfg, ws));
    var legs := [];
    for i := 0 to |cs|
      invariant legs == ResidualLegs(filled[r], ws, cs[..i])
    {
      assert cs[..i + 1][..i] == cs[..i];
      assert cs[i] in cs && cs[i] in weights by { Known(cfg, weights, ws, cs[i]); }
      legs := legs + [Filled(filled[r].account, Some(Amount(-weights[cs[i]], cs[i])), None, filled[r].closing)];
    }
    assert cs[..|cs|] == cs;
    expanded := filled[..r] + legs + filled[r + 1..];
  }

  lemma Known(cfg: Config, weights: map<string, real>, ws: seq<Weight>, c: string)
    requires Sums(weights, ws) && c in ResidualCommodities(cfg, ws)
    ensures c in weights
  {
  }

  method InvOpAlready(ops: seq<InvOp>, k: Key, units: real) returns (already: bool)
    ensures already == AlreadyPlanned(ops, k, units)
  {
    hide OpMatches;
    for i := 0 to |ops|
      invariant forall j | 0 <= j < i :: !OpMatches(ops[j], k, units)
    {
      if OpMatches(ops[i], k, units) { return true; }
    }
    already := false;
  }

  method PlanResidual(inv: Inventory, filled: seq<Filled>, planned: seq<InvOp>) returns (ops: seq<InvOp>)
    ensures ops == ResidualOps(inv, filled, planned)
  {
    ops := planned;
    for i := 0 to |filled|
      invariant ops == ResidualOps(inv, filled[..i], planned)
    {
      assert filled[..i + 1][..i] == filled[..i];
      var more := PlanResidualLeg(inv, filled[i], ops);
      ops := ops + more;
    }
    assert filled[..|filled|] == filled;
  }

  method PlanResidualLeg(inv: Inventory, fp: Filled, ops: seq<InvOp>) returns (more: seq<InvOp>)
    ensures more == ResidualOp(inv, fp, ops)
  {
    hide AlreadyPlanned;
    more := [];
    if fp.units.None? || fp.units.value.number == 0.0 { return; }
    var units, k := fp.units.value.number, Key(fp.account, fp.units.value.commodity);
    if !HasPosition(inv, k) { return; }
    var already := InvOpAlready(ops, k, units);
    if already { return; }
    var avg, comm := LotAvg(inv, k), LotComm(inv, k);
    if units < 0.0 {
      more := [InvOp(false, k, -units, CostAt(-units, avg), comm)];
    } else if comm != "" {
      more := [InvOp(true, k, units, CostAt(units, avg), comm)];
    }
  }

  // ----- phase 2: the net oversell check

  ghost predicate Nets(nets: map<Key, real>, ops: seq<InvOp>, buy: bool) {
    && (forall k | k in nets :: nets[k] == Net(ops, k, buy))
    && (forall k | k !in nets :: Net(ops, k, buy) == 0.0)
    && (forall k :: k in nets <==> exists i | 0 <= i < |ops| :: ops[i].buy == buy && ops[i].key == k)
  }

  function At(nets: map<Key, real>, k: Key): real {
    if k in nets then nets[k] else 0.0
  }

  lemma NetSnoc(ops: seq<InvOp>, op: InvOp, k: Key, buy: bool)
    ensures Net(ops + [op], k, buy) == Net(ops, k, buy) + (if op.key == k && op.buy == buy then op.units else 0.0)
  {
    assert (ops + [op])[..|ops|] == ops;
  }

  lemma NetsSnoc(nets: map<Key, real>, ops: seq<InvOp>, op: InvOp, buy: bool)
    requires Nets(nets, ops, buy)
    ensures Nets(if op.buy == buy then nets[op.key := At(nets, op.key) + op.units] else nets, ops + [op], buy)
  {
    hide Net;
    var nets' := if op.buy == buy then nets[op.key := At(nets, op.key) + op.units] else nets;
    forall k { NetSnoc(ops, op, k, buy); }
    forall k
      ensures k in nets' <==>
              exists i | 0 <= i < |ops + [op]| :: (ops + [op])[i].buy == buy && (ops + [op])[i].key == k
    {
      if k in nets {
        var i :| 0 <= i < |ops| && ops[i].buy == buy && ops[i].key == k;
        assert (ops + [op])[i] == ops[i];
      }
      assert (ops + [op])[|ops|] == op;
    }
  }

  method NetBoth(ops: seq<InvOp>) returns (buyNet: map<Key, real>, sellNet: map<Key, real>)
    ensures Nets(buyNet, ops, true) && Nets(sellNet, ops, false)
  {
    hide Nets, At;
    buyNet, sellNet := map[], map[];
    NoNets();
    for i := 0 to |ops|
      invariant Nets(buyNet, ops[..i], true) && Nets(sellNet, ops[..i], false)
    {
      assert ops[..i + 1] == ops[..i] + [ops[i]];
      NetsSnoc(buyNet, ops[..i], ops[i], true);
      NetsSnoc(sellNet, ops[..i], ops[i], false);
      if ops[i].buy {
        buyNet := buyNet[ops[i].key := At(buyNet, ops[i].key) + ops[i].units];
      } else {
        sellNet := sellNet[ops[i].key := At(sellNet, ops[i].key) + ops[i].units];
      }
    }
    assert ops[..|ops|] == ops;
  }

  lemma NoNets()
    ensures Nets(map[], [], true) && Nets(map[], [], false)
  {
  }

  lemma OversoldKeys(inv: Inventory, ops: seq<InvOp>, buyNet: map<Key, real>, sellNet: map<Key, real>)
    requires Nets(buyNet, ops, true) && Nets(sellNet, ops, false)
    ensures Oversold(inv, ops) <==> exists k | k in sellNet :: Short(inv, buyNet, sellNet[k], k)
  {
    hide Net, At;
    if i :| 0 <= i < |ops| && !ops[i].buy && LotOversold(inv, ops, ops[i].key) {
      assert ops[i].key in sellNet;
      ShortIs(inv, ops, buyNet, sellNet, ops[i].key);
    }
    if k :| k in sellNet && Short(inv, buyNet, sellNet[k], k) {
      var i :| 0 <= i < |ops| && !ops[i].buy && ops[i].key == k;
      ShortIs(inv, ops, buyNet, sellNet, k);
    }
  }

  predicate Short(inv: Inventory, buyNet: map<Key, real>, sell: real, k: Key) {
    sell > 0.0 && sell > UnitsOf(inv, k) + At(buyNet, k)
  }

  lemma ShortIs(inv: Inventory, ops: seq<InvOp>, buyNet: map<Key, real>, sellNet: map<Key, real>, k: Key)
    requires Nets(buyNet, ops, true) && Nets(sellNet, ops, false) && k in sellNet
    ensures Short(inv, buyNet, sellNet[k], k) <==> LotOversold(inv, ops, k)
  {
    hide Net;
  }

  /** The check ranges over a hash map; the order in which it meets the lots does not matter. */
  method CheckOversell(inv: Inventory, ops: seq<InvOp>) returns (oversold: bool)
    ensures oversold == Oversold(inv, ops)
  {
    hide Oversold, Short;
    var buyNet, sellNet := NetBoth(ops);
    OversoldKeys(inv, ops, buyNet, sellNet);
    var todo := sellNet.Keys;
    while todo != {}
      invariant todo <= sellNet.Keys
      invariant forall k | k in sellNet && k !in todo :: !Short(inv, buyNet, sellNet[k], k)
      decreases |todo|
    {
      var k :| k in todo;
      if Short(inv, buyNet, sellNet[k], k) { return true; }
      todo := todo - {k};
    }
    oversold := false;
  }

  // ----- the engine

  class Engine {
    const cfg: Config
    var inv: Inventory
    var bal: Balances
    var open: map<string, Date>
    var close: map<string, Date>
    var pad: map<string, PendingPad>
    var txns: seq<BookedTxn>
    var diags: Diags

    /** The engine's state as a value. */
    ghost function S(): State
      reads this
    {
      State(inv, bal, open, close, pad, txns, diags)
    }

    constructor (cfg: Config)
      ensures this.cfg == cfg && S() == EMPTY
    {
      this.cfg := cfg;
      inv, bal, open, close, pad, txns, diags := map[], map[], map[], map[], map[], [], multiset{};
    }

    method CheckAccountAt(date: Date, account: string)
      modifies this`diags
      ensures diags == old(diags) + CheckAccount(old(S()), date, account)
    {
      var notOpen, late: Diags := multiset{}, multiset{};
      if account !in open {
        notOpen := multiset{NotOpened(account)};
      } else if date < open[account] {
        notOpen := multiset{BeforeOpen(account)};
      }
      if account in close && date >= close[account] {
        late := multiset{AfterClose(account)};
      }
      DiagsAssoc(diags, notOpen, late);
      diags := diags + notOpen + late;
    }

    method AddBalance(k: Key, n: real)
      modifies this`bal
      ensures S() == old(S()).(bal := AddBal(old(bal), k, n))
    {
      if k !in bal { bal := bal[k := 0.0]; }
      bal := bal[k := bal[k] + n];
    }

    method BuyOne(op: InvOp) returns (stop: Option<Diag>)
      modifies this`inv
      ensures BuyMismatch(old(inv), op) ==>
                stop == Some(CostCommodityMismatch(op.key.account, op.key.commodity)) && S() == old(S())
      ensures !BuyMismatch(old(inv), op) ==> stop.None? && S() == old(S()).(inv := Buy(old(inv), op))
    {
      var pos := if op.key in inv then inv[op.key] else Position(0.0, 0.0, op.costComm);
      if pos.costComm != "" && pos.costComm != op.costComm && pos.units != 0.0 {
        return Some(CostCommodityMismatch(op.key.account, op.key.commodity));
      }
      inv := inv[op.key := Position(pos.units + op.units, pos.totalCost + op.total, op.costComm)];
      stop := None;
    }

    method SellOne(op: InvOp) returns (stop: Option<Diag>)
      modifies this`inv
      ensures op.key !in old(inv) ==> stop == Some(NoPosition(op.key.account, op.key.commodity)) && S() == old(S())
      ensures op.key in old(inv) ==> stop.None? && S() == old(S()).(inv := Sell(old(inv), op))
    {
      if op.key !in inv { return Some(NoPosition(op.key.account, op.key.commodity)); }
      var pos := inv[op.key];
      var units := pos.units - op.units;
      var total := pos.totalCost - op.total;
      if units == 0.0 { total := 0.0; }
      inv := inv[op.key := Position(units, total, pos.costComm)];
      stop := None;
    }

    /** Phase 1: plans the postings one by one, checking accounts on the way. */
    method PlanPostings(t: Directive)
      returns (ok: bool, filled: seq<Filled>, ops: seq<InvOp>, residual: Option<nat>, ghost reported: Diags)
      requires t.Transaction?
      modifies this`diags
      ensures PlanAll(cfg, old(S()), t.meta.date, t.postings)
           == if ok then Planned(filled, ops, residual, reported) else Aborted(reported)
      ensures diags == old(diags) + reported
    {
      hide PlanLeg, CheckAccount;
      ghost var s, ps := S(), t.postings;
      ok, filled, ops, residual, reported := true, [], [], None, multiset{};
      for i := 0 to |t.postings|
        invariant Planned(filled, ops, residual, reported) == PlanAll(cfg, s, t.meta.date, ps[..i])
        invariant ok && |filled| == i
        invariant diags == s.diags + reported
      {
        var p := t.postings[i];
        PlanPrefix(cfg, s, t.meta.date, ps, i);
        SameChecks(s, S(), t.meta.date, p.account);
        DiagsAssoc(s.diags, reported, CheckAccount(s, t.meta.date, p.account));
        CheckAccountAt(t.meta.date, p.account);
        reported := reported + CheckAccount(s, t.meta.date, p.account);
        var leg := PlanLeg(cfg, inv, p);
        match leg {
          case Residual =>
            if residual.Some? {
              diags := diags + multiset{MultipleResidual};
              DiagsAssoc(s.diags, reported, multiset{MultipleResidual});
              ok, reported := false, reported + multiset{MultipleResidual};
              PlanStaysAborted(cfg, s, t.meta.date, ps, i + 1);
              return;
            }
            residual := Some(i);
            filled := filled + [Filled(p.account, None, None, p.closing)];
          case Bad(diag) =>
            diags := diags + multiset{diag};
            DiagsAssoc(s.diags, reported, multiset{diag});
            ok, reported := false, reported + multiset{diag};
            PlanStaysAborted(cfg, s, t.meta.date, ps, i + 1);
            return;
          case Good(fp, op) =>
            filled := filled + [fp];
            if op.Some? { ops := ops + [op.value]; }
        }
      }
      assert ps[..|ps|] == ps;
    }

    /** Reports an imbalance for every commodity beyond tolerance; the transaction is still booked. */
    method CheckBalanced(weights: map<string, real>, ghost ws: seq<Weight>)
      requires Sums(weights, ws)
      modifies this`diags
      ensures S() == Report(old(S()), UnbalancedDiags(cfg, ws))
    {
      hide SumFor;
      var bad := set c | c in weights && Abs(weights[c]) > Tol(cfg, c);
      assert bad == Unabsorbed(cfg, ws);
      assert (set c | c in bad :: Unbalanced(c, weights[c])) == set c | c in bad :: Unbalanced(c, SumFor(ws, c)) by {
        assert forall c | c in bad :: Unbalanced(c, weights[c]) == Unbalanced(c, SumFor(ws, c));
      }
      diags := diags + multiset(set c | c in bad :: Unbalanced(c, weights[c]));
    }

    /** Phase 3: increases first, then reductions; stops at the first error. */
    method ApplyOps(ops: seq<InvOp>) returns (stop: Option<Diag>)
      requires !Oversold(inv, ops)
      modifies this`inv
      ensures Move(old(inv), ops) == Pass(inv, stop)
      ensures S() == old(S()).(inv := inv)
    {
      hide BuyMismatch, Buy, Sell, Oversold;
      ghost var inv0 := inv;
      stop := None;
      for i := 0 to |ops|
        invariant BuyPass(inv0, ops[..i]) == Pass(inv, stop) && stop.None?
        invariant S() == old(S()).(inv := inv)
      {
        assert ops[..i + 1][..i] == ops[..i];
        if ops[i].buy {
          stop := BuyOne(ops[i]);
          if stop.Some? { BuyStays(inv0, ops, i + 1); return; }
        }
      }
      assert ops[..|ops|] == ops;
      ghost var inv1 := inv;
      for i := 0 to |ops|
        invariant SellPass(inv1, ops[..i]) == Pass(inv, stop) && stop.None?
        invariant S() == old(S()).(inv := inv)
      {
        assert ops[..i + 1][..i] == ops[..i];
        if !ops[i].buy {
          stop := SellOne(ops[i]);
          if stop.Some? { SellStays(inv1, ops, i + 1); return; }
        }
      }
    }

    /** Phase 4: bare unit balances for all filled legs. */
    method PostBalances(filled: seq<Filled>)
      modifies this`bal
      ensures S() == old(S()).(bal := PostAll(old(bal), filled))
    {
      hide AddBal;
      ghost var bal0 := bal;
      for i := 0 to |filled|
        invariant S() == old(S()).(bal := PostAll(bal0, filled[..i]))
      {
        assert filled[..i + 1][..i] == filled[..i];
        var fp := filled[i];
        if fp.units.Some? && fp.units.value.commodity != "" {
          AddBalance(Key(fp.account, fp.units.value.commodity), fp.units.value.number);
        }
      }
      assert filled[..|filled|] == filled;
    }

    /** Phases 1 and 1b, and the residual leg. */
    method PrepareTransaction(t: Directive) returns (ok: bool, filled: seq<Filled>, ops: seq<InvOp>)
      requires t.Transaction?
      modifies this`diags
      ensures ok == Prepare(cfg, old(S()), t).Some?
      ensures ok ==> var ready := Prepare(cfg, old(S()), t).value;
                     ready.filled == filled && ready.ops == ops && diags == old(diags) + ready.diags
      ensures !ok ==> diags == old(diags) + PlanAll(cfg, old(S()), t.meta.date, t.postings).diags
    {
      hide PlanAll, FillResidual, ResidualOps, TxnWeights, Sums, UnbalancedDiags;
      ghost var reported;
      var residual;
      PlanLength(cfg, S(), t.meta.date, t.postings);
      ok, filled, ops, residual, reported := PlanPostings(t);
      if !ok { return; }
      var weights := Weigh(t.postings, filled);
      ghost var ws := TxnWeights(t.postings, filled);
      if residual.Some? {
        filled := ExpandResidual(cfg, filled, residual.value, weights, ws);
        ops := PlanResidual(inv, filled, ops);
      } else {
        DiagsAssoc(old(diags), reported, UnbalancedDiags(cfg, ws));
        CheckBalanced(weights, ws);
      }
    }

    method BookTransaction(t: Directive)
      requires t.Transaction?
      modifies this
      ensures S() == BookTxn(cfg, old(S()), t)
    {
      hide PlanAll, Prepare, Oversold, BuyPass, SellPass, PostAll;
      ghost var s := S();
      var ok, filled, ops := PrepareTransaction(t);
      if !ok { PrepareSome(cfg, s, t); return; }
      ghost var ready := Prepare(cfg, s, t).value;
      PrepareSome(cfg, s, t);
      var oversold := CheckOversell(inv, ops);
      if oversold {
        DiagsAssoc(s.diags, ready.diags, multiset{Oversell});
        diags := diags + multiset{Oversell};
        return;
      }
      var stop := ApplyOps(ops);
      if stop.Some? {
        DiagsAssoc(s.diags, ready.diags, multiset{stop.value});
        diags := diags + multiset{stop.value};
        return;
      }
      PostBalances(filled);
      txns := txns + [BookedTxn(t.meta, t.flag, t.postings, filled)];
    }

    method FirePending(b: Directive, diff: real)
      requires b.Balance? && b.account in pad && diff == Shortfall(S(), b)
      modifies this
      ensures S() == FirePad(old(S()), b)
    {
      hide AddBal, CheckAccount, PadLine;
      var p := pad[b.account];
      CheckAccountAt(b.meta.date, p.fromAccount);
      AddBalance(Key(b.account, b.amount.commodity), diff);
      AddBalance(Key(p.fromAccount, b.amount.commodity), -diff);
      txns := txns + [PadLine(p, b, diff)];
      pad := pad - {b.account};
    }

    method BookBalanceOf(b: Directive)
      requires b.Balance?
      modifies this
      ensures S() == BookBalance(cfg, old(S()), b)
    {
      hide FirePad, Abs, BalOf;
      var k := Key(b.account, b.amount.commodity);
      var diff := b.amount.number - BalOf(bal, k);
      var tol := Tol(cfg, b.amount.commodity);
      if Abs(diff) <= tol {
        pad := pad - {b.account};
        return;
      }
      if b.account in pad {
        FirePending(b, diff);
        if Abs(b.amount.number - BalOf(bal, k)) <= tol { return; }
      }
      diags := diags + multiset{BalanceFailed(b.meta, b.account, b.amount, BalOf(bal, k))};
    }

    method ApplyOne(d: Directive)
      modifies this
      ensures S() == Apply(cfg, old(S()), d)
    {
      hide BookTxn, BookBalance;
      match d {
        case Open(meta, account, _, _) =>
          if account in open {
            diags := diags + multiset{DuplicateOpen(account)};
          } else {
            open := open[account := meta.date];
          }
        case Close(meta, account) => close := close[account := meta.date];
        case Transaction(_, _, _) => BookTransaction(d);
        case Balance(_, _, _) => BookBalanceOf(d);
        case Pad(meta, account, fromAccount) => pad := pad[account := PendingPad(meta, fromAccount)];
        case _ =>
      }
    }

    method ApplySorted(ds: seq<Directive>)
      modifies this
      ensures S() == Run(cfg, old(S()), ds)
    {
      hide Apply;
      ghost var s := S();
      for i := 0 to |ds|
        invariant S() == Run(cfg, s, ds[..i])
      {
        assert ds[..i + 1][..i] == ds[..i];
        ApplyOne(ds[i]);
      }
      assert ds[..|ds|] == ds;
    }

    /** Books a stream: sorts it and applies it. */
    method Book(dirs: seq<Directive>)
      modifies this
      ensures S() == Run(cfg, old(S()), SortDirectives(dirs))
    {
      var sorted := SortedDirectives(dirs);
      ApplySorted(sorted);
    }
  }

  lemma DiagsAssoc(x: Diags, y: Diags, z: Diags)
    ensures x + y + z == x + (y + z)
  {
  }

  lemma SameChecks(s: State, s': State, date: Date, account: string)
    requires s.open == s'.open && s.close == s'.close
    ensures CheckAccount(s, date, account) == CheckAccount(s', date, account)
  {
  }

  lemma {:induction false} BuyStays(inv: Inventory, ops: seq<InvOp>, i: nat)
    requires i <= |ops| && BuyPass(inv, ops[..i]).stop.Some?
    ensures BuyPass(inv, ops) == BuyPass(inv, ops[..i])
    decreases |ops| - i
  {
    if i == |ops| {
      assert ops[..i] == ops;
    } else {
      assert ops[..i + 1][..i] == ops[..i];
      BuyStays(inv, ops, i + 1);
    }
  }

  lemma {:induction false} SellStays(inv: Inventory, ops: seq<InvOp>, i: nat)
    requires i <= |ops| && SellPass(inv, ops[..i]).stop.Some?
    ensures SellPass(inv, ops) == SellPass(inv, ops[..i])
    decreases |ops| - i
  {
    if i == |ops| {
      assert ops[..i] == ops;
    } else {
      assert ops[..i + 1][..i] == ops[..i];
      SellStays(inv, ops, i + 1);
    }
  }

  method LatePad(probe: Engine, d: Directive) returns (synth: seq<Directive>)
    ensures synth == Pads.LateTxn(probe.cfg, probe.S(), d)
  {
    hide Pads.PadTxn, Abs, BalOf;
    synth := [];
    if d.Balance? {
      var diff := d.amount.number - BalOf(probe.bal, Key(d.account, d.amount.commodity));
      if Abs(diff) > Tol(probe.cfg, d.amount.commodity) && d.account in probe.pad
         && probe.pad[d.account].meta.date != d.meta.date {
        synth := [Pads.PadTxn(probe.pad[d.account], d, diff)];
      }
    }
  }

  /** Materializes late pads, driving a probe engine over the sorted stream. */
  method ExpandPads(cfg: Config, dirs: seq<Directive>) returns (out: seq<Directive>)
    ensures out == Pads.ExpandPads(cfg, dirs)
  {
    hide Apply, Pads.LateTxn, Sorting.Sort;
    var probe := new Engine(cfg);
    var sorted := SortedDirectives(dirs);
    var synth := [];
    for i := 0 to |sorted|
      invariant probe.cfg == cfg && fresh(probe)
      invariant probe.S() == Run(cfg, EMPTY, sorted[..i])
      invariant synth == Pads.Synth(cfg, EMPTY, sorted[..i])
    {
      assert sorted[..i + 1][..i] == sorted[..i];
      var d := sorted[i];
      var late := LatePad(probe, d);
      synth := synth + late;
      probe.ApplyOne(d);
    }
    assert sorted[..|sorted|] == sorted;
    out := dirs + synth;
  }
}
