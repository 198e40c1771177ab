/** How filled legs, the empty one above all, move the lots of their accounts. */
module ResidualMoves {
  import opened Ast
  import opened Names
  import opened Booking
  import opened Journal
  import opened Gains
  import opened Purchases

  predicate MovesLot(op: InvOp, k: Key, units: real) {
    op.key == k && op.units == Abs(units) && (op.buy <==> units > 0.0)
  }

  /** The leg stands on a lot that can take it: any lot for a reduction, a costed one for an increase. */
  predicate OnLot(inv: Inventory, fp: Filled) {
    && fp.units.Some? && fp.units.value.number != 0.0
    && var k := Key(fp.account, fp.units.value.commodity);
       k in inv && inv[k].units != 0.0 && (fp.units.value.number > 0.0 ==> inv[k].costComm != "")
  }

  predicate Moved(ops: seq<InvOp>, fp: Filled)
    requires fp.units.Some?
  {
    exists j | 0 <= j < |ops| :: MovesLot(ops[j], Key(fp.account, fp.units.value.commodity), fp.units.value.number)
  }

  /** The move is that of the leg, at the average of its lot. */
  predicate MoveOfLeg(inv: Inventory, op: InvOp, fp: Filled) {
    && OnLot(inv, fp) && MovesLot(op, Key(fp.account, fp.units.value.commodity), fp.units.value.number)
    && op.total * inv[op.key].units == op.units * inv[op.key].totalCost && op.costComm == inv[op.key].costComm
  }

  lemma AtAverage(u: real, units: real, cost: real)
    requires units != 0.0
    ensures (u * (cost / units)) * units == u * cost
  {
  }

  lemma OneLeg(inv: Inventory, fp: Filled, ops: seq<InvOp>)
    ensures var more := ResidualOp(inv, fp, ops);
            && |more| <= 1 && (more == [] || MoveOfLeg(inv, more[0], fp))
            && (more == [] && OnLot(inv, fp) ==> Moved(ops, fp))
            && (more != [] ==> !Moved(ops, fp))
  {
    if fp.units.Some? && HasPosition(inv, Key(fp.account, fp.units.value.commodity)) {
      var pos := inv[Key(fp.account, fp.units.value.commodity)];
      AtAverage(Abs(fp.units.value.number), pos.units, pos.totalCost);
      var k, units := Key(fp.account, fp.units.value.commodity), fp.units.value.number;
      if units != 0.0 {
        assert forall j | 0 <= j < |ops| :: MovesLot(ops[j], k, units) <==> OpMatches(ops[j], k, units);
      }
    }
  }

  lemma MovedStays(ops: seq<InvOp>, more: seq<InvOp>, fp: Filled)
    requires fp.units.Some? && Moved(ops, fp)
    ensures Moved(ops + more, fp)
  {
    var k := Key(fp.account, fp.units.value.commodity);
    var j :| 0 <= j < |ops| && MovesLot(ops[j], k, fp.units.value.number);
    assert MovesLot((ops + more)[j], k, fp.units.value.number);
  }

  lemma MovedLast(inv: Inventory, ops: seq<InvOp>, op: InvOp, fp: Filled)
    requires MoveOfLeg(inv, op, fp)
    ensures Moved(ops + [op], fp)
  {
    assert MovesLot((ops + [op])[|ops|], Key(fp.account, fp.units.value.commodity), fp.units.value.number);
  }

  /**
    Every filled leg that stands on a lot has a move of its lot, direction and size among the moves; and every
    move added to the planned ones is that of such a leg, at the average of the lot.
  */
  lemma {:induction false} LegsMoveLots(inv: Inventory, filled: seq<Filled>, ops: seq<InvOp>)
    ensures var all := ResidualOps(inv, filled, ops);
            && ops <= all
            && (forall i | 0 <= i < |filled| && OnLot(inv, filled[i]) :: filled[i].units.Some? && Moved(all, filled[i]))
            && (forall j | |ops| <= j < |all| :: exists i | 0 <= i < |filled| :: MoveOfLeg(inv, all[j], filled[i]))
  {
    hide OnLot, Moved, MoveOfLeg, ResidualOp;
    if filled != [] {
      var n := |filled| - 1;
      var before := ResidualOps(inv, filled[..n], ops);
      var more := ResidualOp(inv, filled[n], before);
      LegsMoveLots(inv, filled[..n], ops);
      OneLeg(inv, filled[n], before);
      forall i | 0 <= i < |filled| && OnLot(inv, filled[i])
        ensures filled[i].units.Some? && Moved(before + more, filled[i])
      {
        OnLotHas(inv, filled[i]);
        if i < n {
          assert filled[..n][i] == filled[i];
          MovedStays(before, more, filled[i]);
        } else if more == [] {
          MovedStays(before, more, filled[i]);
        } else {
          MovedLast(inv, before, more[0], filled[n]);
          assert more == [more[0]];
        }
      }
      forall j | |ops| <= j < |before + more|
        ensures exists i | 0 <= i < |filled| :: MoveOfLeg(inv, (before + more)[j], filled[i])
      {
        if j < |before| {
          var i :| 0 <= i < n && MoveOfLeg(inv, before[j], filled[..n][i]);
          assert MoveOfLeg(inv, before[j], filled[i]);
        } else {
          assert (before + more)[j] == more[0];
        }
      }
    }
  }

  lemma OnLotHas(inv: Inventory, fp: Filled)
    requires OnLot(inv, fp)
    ensures fp.units.Some?
  {
  }

  // ----- an empty leg on an account with a lot

  lemma OnlyEmptyMoves(inv: Inventory, fs: seq<Filled>, money: nat, empty: nat)
    requires |fs| == 2 && Pair(money, empty) && fs[money].units.Some?
    requires !HasPosition(inv, Key(fs[money].account, fs[money].units.value.commodity))
    ensures ResidualOps(inv, fs, []) == ResidualOp(inv, fs[empty], [])
  {
    hide HasPosition, OpMatches, LotAvg, LotComm, CostAt;
    assert fs[..1] == [fs[0]] && [fs[0]][..0] == [];
    assert ResidualOps(inv, [fs[0]], []) == ResidualOps(inv, [], []) + ResidualOp(inv, fs[0], ResidualOps(inv, [], []));
    assert ResidualOps(inv, [fs[0]], []) == ResidualOp(inv, fs[0], []);
    assert ResidualOps(inv, fs, []) ==
           ResidualOps(inv, fs[..1], []) + ResidualOp(inv, fs[1], ResidualOps(inv, fs[..1], []));
    assert forall ops: seq<InvOp> :: ResidualOp(inv, fs[money], ops) == [];
  }

  /**
    Cash and an empty leg, in either order, on an account that holds a lot of the cash: the empty leg takes the
    opposite amount, beyond tolerance, and the lot follows at its average; it is reduced for cash that goes out,
    and increased for cash that comes back, if it is costed at all.
  */
  lemma {:induction false} EmptyLegMovesLot(
      cfg: Config, s: State, t: Directive, money: nat, empty: nat, k: Key, x: real, avg: real)
    requires t.Transaction? && |t.postings| == 2 && Pair(money, empty)
    requires Receives(s.inv, t.postings[money], x, k.commodity) && x != 0.0 && Abs(x) > Tol(cfg, k.commodity)
    requires t.postings[empty].units.None? && t.postings[empty].account == k.account
    requires k in s.inv && s.inv[k].units != 0.0 && avg == s.inv[k].totalCost / s.inv[k].units
    ensures Prepare(cfg, s, t).Some? && |Prepare(cfg, s, t).value.filled| == 2
    ensures Prepare(cfg, s, t).value.filled[empty].account == k.account
         && Prepare(cfg, s, t).value.filled[empty].units == Some(Amount(-x, k.commodity))
    ensures Prepare(cfg, s, t).value.ops ==
            if x > 0.0 then [InvOp(false, k, x, CostAt(x, avg), s.inv[k].costComm)]
            else if s.inv[k].costComm != "" then [InvOp(true, k, -x, CostAt(-x, avg), s.inv[k].costComm)]
            else []
  {
    hide PlanLeg, PlanAll, FillResidual, Weights, FaceDemands, ResidualOps, Tol, Blank, Receives, ResidualOp;
    var ps := t.postings;
    var leg := Good(CashLeg(ps[money], x, k.commodity), None);
    CashPlanned(cfg, s.inv, ps[money], x, k.commodity);
    BuyThenEmpty(cfg, s, t, money, empty, leg);
    var fs := PlanAll(cfg, s, t.meta.date, ps).filled;
    var demand := FaceDemands(ps, fs);
    TwoLegs(ps, fs, demand);
    BareLeg(s.inv, ps[money], x, k.commodity, demand);
    assert TxnWeights(ps, fs) == [Weight(k.commodity, x)];
    TwoFilled(cfg, fs, empty, k.commodity, x);
    var filled := FillResidual(cfg, fs, empty, [Weight(k.commodity, x)]);
    BareOnNoLot(s.inv, ps[money], x, k.commodity);
    OnlyEmptyMoves(s.inv, filled, money, empty);
    EmptyMove(s.inv, filled[empty], k, x, avg);
  }

  lemma BareOnNoLot(inv: Inventory, q: Posting, x: real, c: string)
    requires Receives(inv, q, x, c)
    ensures !HasPosition(inv, Key(q.account, c))
  {
  }

  lemma EmptyMove(inv: Inventory, fp: Filled, k: Key, x: real, avg: real)
    requires fp.account == k.account && fp.units == Some(Amount(-x, k.commodity)) && x != 0.0
    requires k in inv && inv[k].units != 0.0 && avg == inv[k].totalCost / inv[k].units
    ensures ResidualOp(inv, fp, []) ==
            if x > 0.0 then [InvOp(false, k, x, CostAt(x, avg), inv[k].costComm)]
            else if inv[k].costComm != "" then [InvOp(true, k, -x, CostAt(-x, avg), inv[k].costComm)]
            else []
  {
    assert Key(fp.account, k.commodity) == k;
    hide CostAt;
    assert LotAvg(inv, k) == avg && -(-x) == x;
  }
}
