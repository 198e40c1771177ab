/** Inventory over whole runs: no lot is ever short, and what a failed transaction leaves behind. */
module InventorySafety {
  import opened Ast
  import opened Booking

  /** No lot is short, and an empty lot carries no cost. */
  ghost predicate Safe(inv: Inventory) {
    forall k | k in inv :: inv[k].units >= 0.0 && (inv[k].units == 0.0 ==> inv[k].totalCost == 0.0)
  }

  predicate Positive(ops: seq<InvOp>) {
    forall i | 0 <= i < |ops| :: ops[i].units > 0.0
  }

  lemma LegPositive(cfg: Config, inv: Inventory, p: Posting)
    ensures var leg := PlanLeg(cfg, inv, p); leg.Good? && leg.op.Some? ==> leg.op.value.units > 0.0
  {
  }

  lemma NextPositive(cfg: Config, s: State, date: Date, p: Posting, plan: Plan)
    requires plan.Planned? ==> Positive(plan.ops)
    ensures var next := PlanNext(cfg, s, date, p, plan); next.Planned? ==> Positive(next.ops)
  {
    LegPositive(cfg, s.inv, p);
  }

  lemma {:induction false} PlannedPositive(cfg: Config, s: State, date: Date, ps: seq<Posting>)
    ensures var plan := PlanAll(cfg, s, date, ps); plan.Planned? ==> Positive(plan.ops)
  {
    if ps != [] {
      var ps' := ps[..|ps| - 1];
      PlannedPositive(cfg, s, date, ps');
      NextPositive(cfg, s, date, ps[|ps| - 1], PlanAll(cfg, s, date, ps'));
    }
  }

  lemma {:induction false} ResidualPositive(inv: Inventory, filled: seq<Filled>, ops: seq<InvOp>)
    requires Positive(ops)
    ensures Positive(ResidualOps(inv, filled, ops))
  {
    if filled != [] { ResidualPositive(inv, filled[..|filled| - 1], ops); }
  }

  lemma PreparedPositive(cfg: Config, s: State, t: Directive)
    requires t.Transaction?
    ensures Prepare(cfg, s, t).Some? ==> Positive(Prepare(cfg, s, t).value.ops)
  {
    PlannedPositive(cfg, s, t.meta.date, t.postings);
    PlanLength(cfg, s, t.meta.date, t.postings);
    var plan := PlanAll(cfg, s, t.meta.date, t.postings);
    if plan.Planned? && plan.residual.Some? {
      var filled := FillResidual(cfg, plan.filled, plan.residual.value, TxnWeights(t.postings, plan.filled));
      ResidualPositive(s.inv, filled, plan.ops);
    }
  }

  /** Net only grows, and counts each move of its lot. */
  lemma {:induction false} NetCovers(ops: seq<InvOp>, k: Key, buy: bool, i: nat)
    requires Positive(ops) && i <= |ops|
    ensures 0.0 <= Net(ops[..i], k, buy) <= Net(ops, k, buy)
    ensures i < |ops| && ops[i].key == k && ops[i].buy == buy ==>
              Net(ops[..i], k, buy) + ops[i].units <= Net(ops, k, buy)
    decreases |ops|
  {
    if i == |ops| {
      assert ops[..i] == ops;
      if ops != [] { NetCovers(ops[..i - 1], k, buy, i - 1); }
    } else {
      var ops' := ops[..|ops| - 1];
      NetCovers(ops', k, buy, i);
      assert ops'[..i] == ops[..i];
    }
  }

  lemma {:induction false} Buying(inv: Inventory, ops: seq<InvOp>, k: Key)
    requires Positive(ops)
    ensures var r := BuyPass(inv, ops);
            && UnitsOf(r.inv, k) >= UnitsOf(inv, k)
            && (r.stop.None? ==> UnitsOf(r.inv, k) == UnitsOf(inv, k) + Net(ops, k, true))
  {
    if ops != [] { Buying(inv, ops[..|ops| - 1], k); }
  }

  lemma {:induction false} BuyingIsSafe(inv: Inventory, ops: seq<InvOp>)
    requires Positive(ops) && Safe(inv)
    ensures Safe(BuyPass(inv, ops).inv)
  {
    if ops != [] { BuyingIsSafe(inv, ops[..|ops| - 1]); }
  }

  /** Each lot that is sold from holds all that is sold from it. */
  ghost predicate Covered(inv: Inventory, ops: seq<InvOp>) {
    forall i | 0 <= i < |ops| && !ops[i].buy :: Net(ops, ops[i].key, false) <= UnitsOf(inv, ops[i].key)
  }

  lemma {:induction false} Selling(inv: Inventory, ops: seq<InvOp>, k: Key)
    requires Positive(ops) && Covered(inv, ops) && Safe(inv)
    ensures var r := SellPass(inv, ops);
            r.stop.None? && Safe(r.inv) && UnitsOf(r.inv, k) == UnitsOf(inv, k) - Net(ops, k, false)
    ensures k in SellPass(inv, ops).inv <==> k in inv
  {
    if ops != [] {
      var ops', op := ops[..|ops| - 1], ops[|ops| - 1];
      forall i | 0 <= i < |ops'| && !ops'[i].buy ensures Net(ops', ops'[i].key, false) <= UnitsOf(inv, ops'[i].key) {
        NetCovers(ops, ops[i].key, false, |ops'|);
      }
      Selling(inv, ops', k);
      if !op.buy {
        Selling(inv, ops', op.key);
        NetCovers(ops, op.key, false, |ops'|);
      }
    }
  }

  /** The oversell check makes the sell pass succeed on every prepared transaction. */
  lemma SellsNeverFail(inv: Inventory, ops: seq<InvOp>)
    requires Positive(ops) && Safe(inv) && !Oversold(inv, ops) && BuyPass(inv, ops).stop.None?
    ensures var bought := BuyPass(inv, ops).inv;
            Safe(bought) && Covered(bought, ops) && SellPass(bought, ops).stop.None? && Safe(SellPass(bought, ops).inv)
  {
    var bought := BuyPass(inv, ops).inv;
    BuyingIsSafe(inv, ops);
    forall i | 0 <= i < |ops| && !ops[i].buy ensures Net(ops, ops[i].key, false) <= UnitsOf(bought, ops[i].key) {
      Buying(inv, ops, ops[i].key);
      NetCovers(ops, ops[i].key, false, i);
    }
    Selling(bought, ops, Key("", ""));
  }

  /** No sell without a lot is reported. */
  ghost predicate NoSellFailed(diags: Diags) {
    forall d | d in diags :: !d.NoPosition?
  }

  lemma NextDiags(cfg: Config, s: State, date: Date, p: Posting, plan: Plan)
    requires NoSellFailed(plan.diags)
    ensures NoSellFailed(PlanNext(cfg, s, date, p, plan).diags)
  {
    assert NoSellFailed(CheckAccount(s, date, p.account));
    var leg := PlanLeg(cfg, s.inv, p);
    assert leg.Bad? ==> !leg.diag.NoPosition?;
  }

  lemma {:induction false} PlanDiags(cfg: Config, s: State, date: Date, ps: seq<Posting>)
    ensures NoSellFailed(PlanAll(cfg, s, date, ps).diags)
  {
    if ps != [] {
      var ps' := ps[..|ps| - 1];
      PlanDiags(cfg, s, date, ps');
      NextDiags(cfg, s, date, ps[|ps| - 1], PlanAll(cfg, s, date, ps'));
    }
  }

  lemma PreparedDiags(cfg: Config, s: State, t: Directive)
    requires t.Transaction?
    ensures Prepare(cfg, s, t).Some? ==> NoSellFailed(Prepare(cfg, s, t).value.diags)
  {
    PlanDiags(cfg, s, t.meta.date, t.postings);
    PlanLength(cfg, s, t.meta.date, t.postings);
    var plan := PlanAll(cfg, s, t.meta.date, t.postings);
    if plan.Planned? {
      var ws := TxnWeights(t.postings, plan.filled);
      assert NoSellFailed(UnbalancedDiags(cfg, ws));
    }
  }

  /** Moves on a safe inventory leave it safe and stop only at an oversell or a cost mismatch. */
  lemma MoveKeepsSafe(inv: Inventory, ops: seq<InvOp>)
    requires Safe(inv) && Positive(ops)
    ensures var r := Move(inv, ops);
            Safe(r.inv) && (r.stop.Some? ==> r.stop.value.Oversell? || r.stop.value.CostCommodityMismatch?)
  {
    BuyingIsSafe(inv, ops);
    PassStops(inv, ops);
    if !Oversold(inv, ops) && BuyPass(inv, ops).stop.None? { SellsNeverFail(inv, ops); }
  }

  lemma CommitKeepsSafe(s: State, t: Directive, ready: Ready)
    requires t.Transaction? && Safe(s.inv) && Positive(ready.ops)
    requires NoSellFailed(s.diags) && NoSellFailed(ready.diags)
    ensures Safe(Commit(s, t, ready).inv) && NoSellFailed(Commit(s, t, ready).diags)
  {
    MoveKeepsSafe(s.inv, ready.ops);
  }

  lemma TxnKeepsSafe(cfg: Config, s: State, t: Directive)
    requires t.Transaction? && Safe(s.inv) && NoSellFailed(s.diags)
    ensures Safe(BookTxn(cfg, s, t).inv) && NoSellFailed(BookTxn(cfg, s, t).diags)
  {
    PlanDiags(cfg, s, t.meta.date, t.postings);
    PreparedDiags(cfg, s, t);
    PreparedPositive(cfg, s, t);
    var ready := Prepare(cfg, s, t);
    if ready.Some? { CommitKeepsSafe(s, t, ready.value); }
  }

  lemma FirePadQuiet(s: State, b: Directive)
    requires b.Balance? && b.account in s.pad && NoSellFailed(s.diags)
    ensures FirePad(s, b).inv == s.inv && NoSellFailed(FirePad(s, b).diags)
  {
    assert NoSellFailed(CheckAccount(s, b.meta.date, s.pad[b.account].fromAccount));
  }

  lemma FailureQuiet(s: State, b: Directive)
    requires b.Balance? && NoSellFailed(s.diags)
    ensures NoSellFailed(s.diags + Failure(s, b))
  {
    assert NoSellFailed(Failure(s, b));
  }

  lemma BalanceKeepsSafe(cfg: Config, s: State, b: Directive)
    requires b.Balance? && NoSellFailed(s.diags)
    ensures BookBalance(cfg, s, b).inv == s.inv && NoSellFailed(BookBalance(cfg, s, b).diags)
  {
    hide FirePad, Failure;
    FailureQuiet(s, b);
    if b.account in s.pad {
      FirePadQuiet(s, b);
      FailureQuiet(FirePad(s, b), b);
    }
  }

  lemma StepKeepsSafe(cfg: Config, s: State, d: Directive)
    requires Safe(s.inv) && NoSellFailed(s.diags)
    ensures Safe(Apply(cfg, s, d).inv) && NoSellFailed(Apply(cfg, s, d).diags)
  {
    match d
    case Transaction(_, _, _) => TxnKeepsSafe(cfg, s, d);
    case Balance(_, _, _) => BalanceKeepsSafe(cfg, s, d);
    case _ =>
  }

  /**
    Inventory safety. Over every directive stream no lot is ever short, an empty lot has no cost
    left in it, and the branch that reports a sell without a lot is never taken.
  */
  lemma {:induction false} InventoryIsSafe(cfg: Config, ds: seq<Directive>)
    ensures Safe(Run(cfg, EMPTY, ds).inv) && NoSellFailed(Run(cfg, EMPTY, ds).diags)
  {
    if ds != [] {
      InventoryIsSafe(cfg, ds[..|ds| - 1]);
      StepKeepsSafe(cfg, Run(cfg, EMPTY, ds[..|ds| - 1]), ds[|ds| - 1]);
    }
  }

  // ----- all or nothing

  /** The buy at index j is the one that meets a lot costed in another commodity. */
  ghost predicate StopsAt(inv: Inventory, ops: seq<InvOp>, j: nat) {
    && j < |ops| && ops[j].buy
    && BuyPass(inv, ops[..j]).stop.None?
    && BuyMismatch(BuyPass(inv, ops[..j]).inv, ops[j])
  }

  lemma {:induction false} StopIndex(inv: Inventory, ops: seq<InvOp>) returns (j: nat)
    requires BuyPass(inv, ops).stop.Some?
    ensures StopsAt(inv, ops, j) && BuyPass(inv, ops).inv == BuyPass(inv, ops[..j]).inv
  {
    var ops' := ops[..|ops| - 1];
    if BuyPass(inv, ops').stop.Some? {
      j := StopIndex(inv, ops');
      assert ops'[..j] == ops[..j];
    } else {
      j := |ops'|;
    }
  }

  lemma {:induction false} StopUnique(inv: Inventory, ops: seq<InvOp>, i: nat, j: nat)
    requires StopsAt(inv, ops, i) && i < j <= |ops|
    ensures BuyPass(inv, ops[..j]).stop.Some?
    decreases j
  {
    assert ops[..j][..j - 1] == ops[..j - 1];
    if i < j - 1 { StopUnique(inv, ops, i, j - 1); }
  }

  lemma {:induction false} BuyPassMoves(inv: Inventory, ops: seq<InvOp>)
    requires Positive(ops) && BuyPass(inv, ops).stop.None?
    ensures BuyPass(inv, ops).inv == inv <==> forall i | 0 <= i < |ops| :: !ops[i].buy
  {
    if i :| 0 <= i < |ops| && ops[i].buy {
      Buying(inv, ops, ops[i].key);
      NetCovers(ops, ops[i].key, true, i);
    } else {
      NoBuys(inv, ops);
    }
  }

  lemma {:induction false} NoBuys(inv: Inventory, ops: seq<InvOp>)
    requires forall i | 0 <= i < |ops| :: !ops[i].buy
    ensures BuyPass(inv, ops) == Pass(inv, None)
  {
    if ops != [] { NoBuys(inv, ops[..|ops| - 1]); }
  }

  /** A buy fails on its cost commodity after another buy of the same transaction went through. */
  ghost predicate LateMismatch(inv: Inventory, ops: seq<InvOp>) {
    !Oversold(inv, ops) && exists i, j | 0 <= i < j < |ops| :: ops[i].buy && StopsAt(inv, ops, j)
  }

  lemma StoppedMove(inv: Inventory, ops: seq<InvOp>)
    requires Safe(inv) && Positive(ops) && Move(inv, ops).stop.Some?
    ensures Move(inv, ops).inv == inv <==> !LateMismatch(inv, ops)
  {
    if !Oversold(inv, ops) {
      if BuyPass(inv, ops).stop.None? {
        SellsNeverFail(inv, ops);
      } else {
        var j := StopIndex(inv, ops);
        BuyPassMoves(inv, ops[..j]);
        if i, k :| 0 <= i < k < |ops| && ops[i].buy && StopsAt(inv, ops, k) {
          if j < k { StopUnique(inv, ops, j, k); }
          if k < j { StopUnique(inv, ops, k, j); }
          assert ops[..j][i].buy;
        } else {
          forall i | 0 <= i < j ensures !ops[..j][i].buy { assert ops[..j][i] == ops[i]; }
        }
      }
    }
  }

  ghost predicate TxnLateMismatch(cfg: Config, s: State, t: Directive)
    requires t.Transaction?
  {
    Prepare(cfg, s, t).Some? && LateMismatch(s.inv, Prepare(cfg, s, t).value.ops)
  }

  /**
    All or nothing. A transaction that adds no journal line changes nothing but the diagnostics,
    and its inventory moves are undone too, exactly unless one of its buys fails on the cost
    commodity after another buy of it went through.
  */
  lemma AllOrNothing(cfg: Config, s: State, t: Directive)
    requires t.Transaction? && Safe(s.inv)
    ensures var s' := BookTxn(cfg, s, t);
            if s'.txns == s.txns then
              && s' == s.(inv := s'.inv, diags := s'.diags)
              && (s'.inv == s.inv <==> !TxnLateMismatch(cfg, s, t))
            else
              && Prepare(cfg, s, t).Some?
              && s'.txns == s.txns + [BookedTxn(t.meta, t.flag, t.postings, Prepare(cfg, s, t).value.filled)]
  {
    PreparedPositive(cfg, s, t);
    var ready := Prepare(cfg, s, t);
    if ready.Some? && Move(s.inv, ready.value.ops).stop.Some? { StoppedMove(s.inv, ready.value.ops); }
  }

  /** Moves on which the exception occurs: the first buy stays although the second one stops them. */
  lemma LateMoveLeavesBuy()
    ensures var x, y := Key("A", "X"), Key("B", "Y");
            var inv := map[x := Position(1.0, 1.0, "USD")];
            var ops := [InvOp(true, y, 1.0, 1.0, "EUR"), InvOp(true, x, 1.0, 1.0, "EUR")];
            && Safe(inv) && Positive(ops) && LateMismatch(inv, ops)
            && Move(inv, ops) == Pass(inv[y := Position(1.0, 1.0, "EUR")], Some(CostCommodityMismatch("A", "X")))
  {
    var x, y := Key("A", "X"), Key("B", "Y");
    var inv := map[x := Position(1.0, 1.0, "USD")];
    var ops := [InvOp(true, y, 1.0, 1.0, "EUR"), InvOp(true, x, 1.0, 1.0, "EUR")];
    assert ops[..1] == [ops[0]] && ops[..1][..0] == [];
    assert BuyPass(inv, ops[..1]) == Pass(Buy(inv, ops[0]), None);
    assert StopsAt(inv, ops, 1);
    assert !Oversold(inv, ops);
  }
}
