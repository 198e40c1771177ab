/** Booking depends on the tolerances of the commodities a stream names, and on no others. */
module Tolerances {
  import opened Ast
  import opened Names
  import opened Sorting
  import opened Ordering
  import opened Booking
  import Pads

  predicate SameTol(x: Config, y: Config, c: string) {
    Tol(x, c) == Tol(y, c)
  }

  /** The configurations agree on every commodity the posting names: of its units, cost and price. */
  predicate PostingAgrees(x: Config, y: Config, p: Posting) {
    && (p.units.Some? ==> SameTol(x, y, p.units.value.commodity))
    && (p.cost.Some? ==> SameTol(x, y, p.cost.value.commodity))
    && (p.price.Some? ==> SameTol(x, y, p.price.value.commodity))
  }

  /** The configurations agree on every commodity the directive books or asserts. */
  predicate Agrees(x: Config, y: Config, d: Directive) {
    match d
    case Transaction(_, _, ps) => forall i | 0 <= i < |ps| :: PostingAgrees(x, y, ps[i])
    case Balance(_, _, amount) => SameTol(x, y, amount.commodity)
    case _ => true
  }

  ghost predicate AllAgree(x: Config, y: Config, ds: seq<Directive>) {
    forall d | d in ds :: Agrees(x, y, d)
  }

  predicate CommAgrees(x: Config, y: Config, c: string) {
    c == "" || SameTol(x, y, c)
  }

  ghost predicate LotsAgree(x: Config, y: Config, inv: Inventory) {
    forall k | k in inv :: CommAgrees(x, y, inv[k].costComm)
  }

  predicate OpsAgree(x: Config, y: Config, ops: seq<InvOp>) {
    forall i | 0 <= i < |ops| :: ops[i].buy ==> CommAgrees(x, y, ops[i].costComm)
  }

  /** A leg planned from the posting: its units, and a basis in an agreed commodity. */
  predicate LegAgrees(x: Config, y: Config, fp: Filled, p: Posting) {
    && (fp.units.Some? ==> p.units.Some? && fp.units.value.commodity == p.units.value.commodity)
    && (fp.costBasis.Some? ==> CommAgrees(x, y, fp.costBasis.value.commodity))
  }

  lemma LegSame(x: Config, y: Config, inv: Inventory, p: Posting)
    requires PostingAgrees(x, y, p) && LotsAgree(x, y, inv)
    ensures PlanLeg(x, inv, p) == PlanLeg(y, inv, p)
    ensures var leg := PlanLeg(x, inv, p);
            leg.Good? ==> LegAgrees(x, y, leg.filled, p) && (leg.op.Some? ==> OpsAgree(x, y, [leg.op.value]))
  {
    hide Blank, Tol;
  }

  lemma {:induction false} PlanSame(x: Config, y: Config, s: State, date: Date, ps: seq<Posting>)
    requires (forall i | 0 <= i < |ps| :: PostingAgrees(x, y, ps[i])) && LotsAgree(x, y, s.inv)
    ensures PlanAll(x, s, date, ps) == PlanAll(y, s, date, ps)
    ensures var plan := PlanAll(x, s, date, ps);
            plan.Planned? ==>
              && |plan.filled| == |ps| && OpsAgree(x, y, plan.ops)
              && forall i | 0 <= i < |ps| :: LegAgrees(x, y, plan.filled[i], ps[i])
  {
    hide PlanLeg, CheckAccount, PostingAgrees, LotsAgree, CommAgrees;
    if ps != [] {
      PlanSame(x, y, s, date, ps[..|ps| - 1]);
      LegSame(x, y, s.inv, ps[|ps| - 1]);
    }
  }

  predicate WeightsAgree(x: Config, y: Config, ws: seq<Weight>) {
    forall i | 0 <= i < |ws| :: SameTol(x, y, ws[i].commodity)
  }

  lemma LegWeightAgrees(x: Config, y: Config, p: Posting, fp: Filled, demand: set<string>)
    requires PostingAgrees(x, y, p) && LegAgrees(x, y, fp, p)
    ensures WeightsAgree(x, y, LegWeight(p, fp, demand))
  {
    hide Tol, Blank;
  }

  lemma {:induction false} WeightsSame(x: Config, y: Config, ps: seq<Posting>, filled: seq<Filled>, demand: set<string>)
    requires |ps| == |filled|
    requires forall i | 0 <= i < |ps| :: PostingAgrees(x, y, ps[i]) && LegAgrees(x, y, filled[i], ps[i])
    ensures WeightsAgree(x, y, Weights(ps, filled, demand))
  {
    hide LegWeight, PostingAgrees, LegAgrees, SameTol;
    if ps != [] {
      var n := |ps| - 1;
      WeightsSame(x, y, ps[..n], filled[..n], demand);
      LegWeightAgrees(x, y, ps[n], filled[n], demand);
    }
  }

  lemma AbsorbedSame(x: Config, y: Config, ws: seq<Weight>)
    requires WeightsAgree(x, y, ws)
    ensures Unabsorbed(x, ws) == Unabsorbed(y, ws)
  {
    hide Tol, SumFor;
    forall c | c in Commodities(ws) ensures SameTol(x, y, c) {
    }
  }

  lemma {:induction false} ResidualOpsAgree(x: Config, y: Config, inv: Inventory, filled: seq<Filled>, ops: seq<InvOp>)
    requires OpsAgree(x, y, ops) && LotsAgree(x, y, inv)
    ensures OpsAgree(x, y, ResidualOps(inv, filled, ops))
  {
    hide AlreadyPlanned, SameTol;
    if filled != [] {
      ResidualOpsAgree(x, y, inv, filled[..|filled| - 1], ops);
    }
  }

  lemma PreparedSame(x: Config, y: Config, s: State, t: Directive)
    requires t.Transaction? && Agrees(x, y, t) && LotsAgree(x, y, s.inv)
    ensures Prepare(x, s, t) == Prepare(y, s, t)
    ensures Prepare(x, s, t).Some? ==> OpsAgree(x, y, Prepare(x, s, t).value.ops)
  {
    hide PlanAll, PostingAgrees, LegAgrees, LotsAgree, OpsAgree, WeightsAgree, FaceDemands, Weights, ResidualOps;
    PlanSame(x, y, s, t.meta.date, t.postings);
    var plan := PlanAll(x, s, t.meta.date, t.postings);
    if plan.Planned? {
      PlanLength(x, s, t.meta.date, t.postings);
      WeightsSame(x, y, t.postings, plan.filled, FaceDemands(t.postings, plan.filled));
      var ws := TxnWeights(t.postings, plan.filled);
      AbsorbedSame(x, y, ws);
      FilledSame(x, y, s.inv, t.postings, plan);
    }
  }

  lemma FilledSame(x: Config, y: Config, inv: Inventory, ps: seq<Posting>, plan: Plan)
    requires plan.Planned? && |plan.filled| == |ps| && (plan.residual.Some? ==> plan.residual.value < |ps|)
    requires Unabsorbed(x, TxnWeights(ps, plan.filled)) == Unabsorbed(y, TxnWeights(ps, plan.filled))
    requires OpsAgree(x, y, plan.ops) && LotsAgree(x, y, inv)
    ensures Balanced(x, inv, ps, plan) == Balanced(y, inv, ps, plan)
    ensures OpsAgree(x, y, Balanced(x, inv, ps, plan).ops)
  {
    hide Unabsorbed, TxnWeights, ResidualOps, OpsAgree, LotsAgree, SumFor, Listing;
    if plan.residual.Some? {
      var filled := FillResidual(x, plan.filled, plan.residual.value, TxnWeights(ps, plan.filled));
      ResidualOpsAgree(x, y, inv, filled, plan.ops);
    }
  }

  lemma {:induction false} BuysAgree(x: Config, y: Config, inv: Inventory, ops: seq<InvOp>)
    requires OpsAgree(x, y, ops) && LotsAgree(x, y, inv)
    ensures LotsAgree(x, y, BuyPass(inv, ops).inv)
  {
    hide SameTol, BuyMismatch;
    if ops != [] {
      BuysAgree(x, y, inv, ops[..|ops| - 1]);
    }
  }

  lemma {:induction false} SellsAgree(x: Config, y: Config, inv: Inventory, ops: seq<InvOp>)
    requires LotsAgree(x, y, inv)
    ensures LotsAgree(x, y, SellPass(inv, ops).inv)
  {
    hide SameTol;
    if ops != [] {
      SellsAgree(x, y, inv, ops[..|ops| - 1]);
    }
  }

  lemma StepSame(x: Config, y: Config, s: State, d: Directive)
    requires Agrees(x, y, d) && LotsAgree(x, y, s.inv)
    ensures Apply(x, s, d) == Apply(y, s, d) && LotsAgree(x, y, Apply(x, s, d).inv)
  {
    hide LotsAgree, BookTxn, BookBalance;
    match d
    case Transaction(_, _, _) => TxnSame(x, y, s, d);
    case Balance(_, _, _) =>
      AssertSame(x, y, s, d);
    case _ =>
  }

  lemma AssertSame(x: Config, y: Config, s: State, b: Directive)
    requires b.Balance? && Agrees(x, y, b)
    ensures BookBalance(x, s, b) == BookBalance(y, s, b) && BookBalance(x, s, b).inv == s.inv
  {
    hide Tol, CheckAccount;
  }

  lemma TxnSame(x: Config, y: Config, s: State, t: Directive)
    requires t.Transaction? && Agrees(x, y, t) && LotsAgree(x, y, s.inv)
    ensures BookTxn(x, s, t) == BookTxn(y, s, t) && LotsAgree(x, y, BookTxn(x, s, t).inv)
  {
    hide PlanAll, Prepare, BuyPass, SellPass, Oversold, PostAll, PostingAgrees, LotsAgree, OpsAgree;
    PlanSame(x, y, s, t.meta.date, t.postings);
    PreparedSame(x, y, s, t);
    PrepareSome(x, s, t);
    PrepareSome(y, s, t);
    if Prepare(x, s, t).Some? {
      var ops := Prepare(x, s, t).value.ops;
      BuysAgree(x, y, s.inv, ops);
      SellsAgree(x, y, BuyPass(s.inv, ops).inv, ops);
    }
  }

  /** Two configurations that agree on the commodities a stream names book it alike. */
  lemma {:induction false} RunSame(x: Config, y: Config, ds: seq<Directive>)
    requires AllAgree(x, y, ds)
    ensures Run(x, EMPTY, ds) == Run(y, EMPTY, ds) && LotsAgree(x, y, Run(x, EMPTY, ds).inv)
  {
    hide Apply, Agrees;
    if ds != [] {
      var n := |ds| - 1;
      RunSame(x, y, ds[..n]);
      StepSame(x, y, Run(x, EMPTY, ds[..n]), ds[n]);
    }
  }

  lemma {:induction false} SynthSame(x: Config, y: Config, ds: seq<Directive>)
    requires AllAgree(x, y, ds)
    ensures Pads.Synth(x, EMPTY, ds) == Pads.Synth(y, EMPTY, ds)
  {
    hide Run, Agrees;
    if ds != [] {
      var n := |ds| - 1;
      SynthSame(x, y, ds[..n]);
      RunSame(x, y, ds[..n]);
      LateSame(x, y, Run(x, EMPTY, ds[..n]), ds[n]);
    }
  }

  lemma LateSame(x: Config, y: Config, s: State, d: Directive)
    requires Agrees(x, y, d)
    ensures Pads.LateTxn(x, s, d) == Pads.LateTxn(y, s, d)
  {
    hide Tol;
  }

  /** They also find the same pads late. */
  lemma ExpandSame(x: Config, y: Config, dirs: seq<Directive>)
    requires AllAgree(x, y, dirs)
    ensures Pads.ExpandPads(x, dirs) == Pads.ExpandPads(y, dirs)
  {
    hide Sort, Agrees;
    SortElements(dirs, DirectiveLess);
    SynthSame(x, y, SortDirectives(dirs));
  }
}
