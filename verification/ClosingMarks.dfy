/** Closing metadata: the marks of the journal are marks of the stream. */
module ClosingMarks {
  import opened Ast
  import opened Names
  import opened Booking

  predicate SomeMarked(ps: seq<Posting>) {
    exists i | 0 <= i < |ps| :: ps[i].closing
  }

  predicate HasClosing(dirs: seq<Directive>) {
    exists i | 0 <= i < |dirs| :: dirs[i].Transaction?
        && exists j | 0 <= j < |dirs[i].postings| :: dirs[i].postings[j].closing
  }

  lemma NoClosing(dirs: seq<Directive>, d: Directive)
    requires d in dirs && d.Transaction?
    ensures SomeMarked(d.postings) ==> HasClosing(dirs)
  {
    if SomeMarked(d.postings) {
      var i :| 0 <= i < |dirs| && dirs[i] == d;
    }
  }

  ghost predicate NoneMarked(filled: seq<Filled>) {
    forall i | 0 <= i < |filled| :: !filled[i].closing
  }

  lemma LegMark(cfg: Config, inv: Inventory, p: Posting)
    ensures PlanLeg(cfg, inv, p).Good? ==> PlanLeg(cfg, inv, p).filled.closing == p.closing
  {
  }

  lemma {:induction false} PlanMarks(cfg: Config, s: State, date: Date, ps: seq<Posting>)
    requires !SomeMarked(ps)
    ensures var plan := PlanAll(cfg, s, date, ps); plan.Planned? ==> NoneMarked(plan.filled)
  {
    hide CheckAccount, PlanLeg;
    if ps != [] {
      assert forall i | 0 <= i < |ps| - 1 :: ps[..|ps| - 1][i] == ps[i];
      PlanMarks(cfg, s, date, ps[..|ps| - 1]);
      LegMark(cfg, s.inv, ps[|ps| - 1]);
    }
  }

  lemma PreparedMarks(cfg: Config, s: State, t: Directive)
    requires t.Transaction? && !SomeMarked(t.postings) && Prepare(cfg, s, t).Some?
    ensures NoneMarked(Prepare(cfg, s, t).value.filled)
  {
    hide PlanAll, SomeMarked, ResidualOps, UnbalancedDiags, TxnWeights, FillResidual;
    PlanMarks(cfg, s, t.meta.date, t.postings);
    PlanLength(cfg, s, t.meta.date, t.postings);
    var plan := PlanAll(cfg, s, t.meta.date, t.postings);
    if plan.residual.Some? {
      FillMarks(cfg, plan.filled, plan.residual.value, TxnWeights(t.postings, plan.filled));
    }
  }

  lemma FillMarks(cfg: Config, filled: seq<Filled>, r: nat, ws: seq<Weight>)
    requires r < |filled| && NoneMarked(filled)
    ensures NoneMarked(FillResidual(cfg, filled, r, ws))
  {
    hide SumFor, ResidualCommodities;
    var out := FillResidual(cfg, filled, r, ws);
    var extra := |out| - |filled|;
    forall i | 0 <= i < |out| ensures !out[i].closing {
      if i < r {
        assert out[i] == filled[i];
      } else if i > r + extra {
        assert out[i] == filled[i - extra];
      }
    }
  }

  ghost predicate JournalUnmarked(txns: seq<BookedTxn>) {
    forall i | 0 <= i < |txns| :: NoneMarked(txns[i].filled)
  }

  lemma {:induction false} RunMarks(cfg: Config, ds: seq<Directive>)
    requires forall d | d in ds && d.Transaction? :: !SomeMarked(d.postings)
    ensures JournalUnmarked(Run(cfg, EMPTY, ds).txns)
  {
    hide SomeMarked, NoneMarked, BookTxn, BookBalance;
    if ds != [] {
      var s, d := Run(cfg, EMPTY, ds[..|ds| - 1]), ds[|ds| - 1];
      RunMarks(cfg, ds[..|ds| - 1]);
      assert d in ds;
      match d
      case Transaction(_, _, _) => TxnMarks(cfg, s, d);
      case Balance(_, _, _) => BalanceMarks(cfg, s, d);
      case _ =>
    }
  }

  lemma TxnMarks(cfg: Config, s: State, t: Directive)
    requires t.Transaction? && !SomeMarked(t.postings) && JournalUnmarked(s.txns)
    ensures JournalUnmarked(BookTxn(cfg, s, t).txns)
  {
    hide PlanAll, Prepare, Move, PostAll, SomeMarked, NoneMarked;
    PrepareSome(cfg, s, t);
    if Prepare(cfg, s, t).Some? { PreparedMarks(cfg, s, t); }
  }

  lemma BalanceMarks(cfg: Config, s: State, b: Directive)
    requires b.Balance? && JournalUnmarked(s.txns)
    ensures JournalUnmarked(BookBalance(cfg, s, b).txns)
  {
    hide BookBalance, Holds, CheckAccount;
    BalanceShape(cfg, s, b);
  }
}
