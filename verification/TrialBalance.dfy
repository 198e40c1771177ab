/** The trial balance of a ledger without costs and prices. */
module TrialBalance {
  import opened Ast
  import opened Names
  import opened Booking
  import opened Journal
  import opened Sums

  predicate Plain(p: Posting) {
    p.cost.None? && p.price.None?
  }

  predicate PlainTxn(d: Directive) {
    d.Transaction? ==> forall i | 0 <= i < |d.postings| :: Plain(d.postings[i])
  }

  predicate PlainStream(ds: seq<Directive>) {
    forall i | 0 <= i < |ds| :: PlainTxn(ds[i])
  }

  ghost function KeysOf(bal: Balances, c: string): set<Key> {
    set k | k in bal && k.commodity == c
  }

  /** The total of one commodity over all accounts. */
  ghost function Total(bal: Balances, c: string): real {
    SumOver(KeysOf(bal, c), (k: Key) => BalOf(bal, k))
  }

  lemma AddTotal(bal: Balances, k: Key, n: real, c: string)
    ensures Total(AddBal(bal, k, n), c) == Total(bal, c) + (if k.commodity == c then n else 0.0)
  {
    var bal' := AddBal(bal, k, n);
    var f, g := (j: Key) => BalOf(bal, j), (j: Key) => BalOf(bal', j);
    var ks, ks' := KeysOf(bal, c), KeysOf(bal', c);
    SumDrop(ks, ks', f);
    if k.commodity == c {
      SumChange(ks', f, g, k);
    } else {
      SumSame(ks', f, g);
    }
  }

  lemma {:induction false} PostTotal(bal: Balances, filled: seq<Filled>, c: string)
    requires c != ""
    ensures Total(PostAll(bal, filled), c) == Total(bal, c) + CommSum(filled, c)
  {
    if filled != [] {
      var filled', fp := filled[..|filled| - 1], filled[|filled| - 1];
      PostTotal(bal, filled', c);
      if fp.units.Some? { AddTotal(PostAll(bal, filled'), Key(fp.account, fp.units.value.commodity),
          fp.units.value.number, c); }
    }
  }

  // ----- planning without lots

  ghost predicate PlainLeg(p: Posting, fp: Filled) {
    && fp.costBasis.None?
    && (fp.units.Some? <==> p.units.Some?)
    && (fp.units.Some? ==> fp.units.value.commodity == p.units.value.commodity)
  }

  lemma PlainPlanLeg(cfg: Config, p: Posting)
    requires Plain(p)
    ensures var leg := PlanLeg(cfg, map[], p);
            && (leg.Residual? <==> p.units.None?)
            && (leg.Good? ==> leg.op.None? && PlainLeg(p, leg.filled))
  {
  }

  ghost predicate PlainPlan(ps: seq<Posting>, plan: Plan) {
    plan.Planned? ==>
      && plan.ops == [] && |plan.filled| == |ps|
      && (forall i | 0 <= i < |ps| :: PlainLeg(ps[i], plan.filled[i]))
      && (plan.residual.Some? ==> plan.residual.value < |ps| && plan.filled[plan.residual.value].units.None?)
  }

  lemma PlainNext(cfg: Config, s: State, date: Date, ps: seq<Posting>, p: Posting, plan: Plan)
    requires s.inv == map[] && Plain(p) && PlainPlan(ps, plan)
    ensures PlainPlan(ps + [p], PlanNext(cfg, s, date, p, plan))
  {
    PlainPlanLeg(cfg, p);
  }

  lemma {:induction false} PlainPlanAll(cfg: Config, s: State, date: Date, ps: seq<Posting>)
    requires s.inv == map[] && forall i | 0 <= i < |ps| :: Plain(ps[i])
    ensures PlainPlan(ps, PlanAll(cfg, s, date, ps))
  {
    if ps != [] {
      var ps' := ps[..|ps| - 1];
      PlainPlanAll(cfg, s, date, ps');
      PlainNext(cfg, s, date, ps', ps[|ps| - 1], PlanAll(cfg, s, date, ps'));
      assert ps == ps' + [ps[|ps| - 1]];
    }
  }

  lemma PlainLegWeight(p: Posting, fp: Filled, demand: set<string>)
    requires Plain(p) && PlainLeg(p, fp)
    ensures LegWeight(p, fp, demand)
          == if fp.units.None? then [] else [Weight(fp.units.value.commodity, fp.units.value.number)]
  {
  }

  lemma {:induction false} PlainWeights(ps: seq<Posting>, filled: seq<Filled>, demand: set<string>, c: string)
    requires |ps| == |filled| && forall i | 0 <= i < |ps| :: Plain(ps[i]) && PlainLeg(ps[i], filled[i])
    ensures SumFor(Weights(ps, filled, demand), c) == CommSum(filled, c)
  {
    if ps != [] {
      var n := |ps| - 1;
      PlainWeights(ps[..n], filled[..n], demand, c);
      PlainLegWeight(ps[n], filled[n], demand);
      var ws := Weights(ps[..n], filled[..n], demand);
      if filled[n].units.Some? {
        SumForSnoc(ws, Weight(filled[n].units.value.commodity, filled[n].units.value.number), c);
      } else {
        assert ws + [] == ws;
      }
    }
  }

  lemma CommSum3(p: seq<Filled>, legs: seq<Filled>, q: seq<Filled>, c: string)
    ensures CommSum(p + legs + q, c) == CommSum(p, c) + CommSum(legs, c) + CommSum(q, c)
  {
    CommSumConcat(p + legs, q, c);
    CommSumConcat(p, legs, c);
  }

  lemma CommSumSplit(p: seq<Filled>, x: Filled, q: seq<Filled>, legs: seq<Filled>, c: string)
    requires x.units.None?
    ensures CommSum(p + legs + q, c) == CommSum(p + [x] + q, c) + CommSum(legs, c)
  {
    CommSum3(p, legs, q, c);
    CommSum3(p, [x], q, c);
    assert [x][..0] == [];
  }

  lemma {:induction false} NoResidualOps(filled: seq<Filled>)
    ensures ResidualOps(map[], filled, []) == []
  {
    if filled != [] { NoResidualOps(filled[..|filled| - 1]); }
  }

  lemma ExpandedSum(cfg: Config, filled: seq<Filled>, r: nat, ws: seq<Weight>, c: string)
    requires r < |filled| && filled[r].units.None? && CommSum(filled, c) == SumFor(ws, c)
    ensures WithinTol(cfg, CommSum(filled[..r] + Expansion(cfg, filled[r], ws) + filled[r + 1..], c), c)
  {
    CommSumSplit(filled[..r], filled[r], filled[r + 1..], Expansion(cfg, filled[r], ws), c);
    assert filled[..r] + [filled[r]] + filled[r + 1..] == filled;
    RemainderWithin(cfg, filled[r], ws, c);
  }

  /** A prepared transaction without costs moves no inventory and is balanced unless reported. */
  lemma PlainPrepared(cfg: Config, s: State, t: Directive, c: string)
    requires t.Transaction? && PlainTxn(t) && s.inv == map[] && Prepare(cfg, s, t).Some?
    ensures var ready := Prepare(cfg, s, t).value;
            ready.ops == [] && (!ImbalanceReported(ready.diags) ==> WithinTol(cfg, CommSum(ready.filled, c), c))
  {
    var plan := PlanAll(cfg, s, t.meta.date, t.postings);
    PlainPlanAll(cfg, s, t.meta.date, t.postings);
    PlainWeights(t.postings, plan.filled, FaceDemands(t.postings, plan.filled), c);
    var ws := TxnWeights(t.postings, plan.filled);
    if plan.residual.Some? {
      var r := plan.residual.value;
      ResidualConserves(cfg, s, t);
      ExpandedSum(cfg, plan.filled, r, ws, c);
      NoResidualOps(FillResidual(cfg, plan.filled, r, ws));
    } else {
      ImbalanceReportedExactly(cfg, s, t);
    }
  }

  // ----- the run

  /** Journal lines that come from transactions; a line made by a pad has no postings of its own. */
  function TxnLines(txns: seq<BookedTxn>): nat {
    if txns == [] then 0
    else TxnLines(txns[..|txns| - 1]) + (if txns[|txns| - 1].postings != [] then 1 else 0)
  }

  lemma TxnLinesSnoc(txns: seq<BookedTxn>, t: BookedTxn)
    ensures TxnLines(txns + [t]) == TxnLines(txns) + (if t.postings != [] then 1 else 0)
  {
    assert (txns + [t])[..|txns|] == txns;
  }

  lemma StillReported(cfg: Config, s: State, d: Directive)
    ensures ImbalanceReported(s.diags) ==> ImbalanceReported(Apply(cfg, s, d).diags)
  {
    hide Apply;
    StepGrows(cfg, s, d);
  }

  function Times(n: nat, x: real): real {
    if n == 0 then 0.0 else Times(n - 1, x) + x
  }

  lemma {:induction false} TimesIsProduct(n: nat, x: real)
    ensures Times(n, x) == x * n as real
  {
    if n != 0 { TimesIsProduct(n - 1, x); }
  }

  ghost predicate Tied(cfg: Config, s: State, c: string) {
    s.inv == map[] && Abs(Total(s.bal, c)) <= Times(TxnLines(s.txns), Tol(cfg, c))
  }

  /** The accounts sum to at most the tolerance for each booked transaction. */
  ghost predicate TolerancePerTxn(cfg: Config, s: State, c: string) {
    Abs(Total(s.bal, c)) <= Tol(cfg, c) * TxnLines(s.txns) as real
  }

  lemma TiedProduct(cfg: Config, s: State, c: string)
    requires Tied(cfg, s, c)
    ensures TolerancePerTxn(cfg, s, c)
  {
    TimesIsProduct(TxnLines(s.txns), Tol(cfg, c));
  }

  lemma FirePadTied(cfg: Config, s: State, b: Directive, c: string)
    requires b.Balance? && b.account in s.pad && Tied(cfg, s, c)
    ensures Tied(cfg, FirePad(s, b), c)
  {
    var pad, comm, diff := s.pad[b.account], b.amount.commodity, Shortfall(s, b);
    AddTotal(s.bal, Key(b.account, comm), diff, c);
    AddTotal(AddBal(s.bal, Key(b.account, comm), diff), Key(pad.fromAccount, comm), -diff, c);
    TxnLinesSnoc(s.txns, PadLine(pad, b, diff));
  }

  lemma LineTied(cfg: Config, s: State, line: BookedTxn, c: string, s': State)
    requires Tied(cfg, s, c) && c != "" && Tol(cfg, c) >= 0.0 && WithinTol(cfg, CommSum(line.filled, c), c)
    requires line.postings == [] ==> line.filled == []
    requires s'.inv == s.inv && s'.bal == PostAll(s.bal, line.filled) && s'.txns == s.txns + [line]
    ensures Tied(cfg, s', c)
  {
    PostTotal(s.bal, line.filled, c);
    TxnLinesSnoc(s.txns, line);
  }

  lemma TxnTied(cfg: Config, s: State, t: Directive, c: string)
    requires t.Transaction? && PlainTxn(t) && Tied(cfg, s, c) && c != "" && Tol(cfg, c) >= 0.0
    requires !ImbalanceReported(BookTxn(cfg, s, t).diags)
    ensures Tied(cfg, BookTxn(cfg, s, t), c)
  {
    hide PlanAll;
    var ready := Prepare(cfg, s, t);
    if ready.Some? {
      PlainPrepared(cfg, s, t, c);
      var r, s' := ready.value, BookTxn(cfg, s, t);
      assert Move(s.inv, []) == Pass(s.inv, None);
      assert s'.diags == s.diags + r.diags;
      assert r.diags <= s'.diags;
      NoPostings(cfg, s, t);
      LineTied(cfg, s, BookedTxn(t.meta, t.flag, t.postings, r.filled), c, s');
    }
  }

  lemma NoPostings(cfg: Config, s: State, t: Directive)
    requires t.Transaction?
    ensures t.postings == [] && Prepare(cfg, s, t).Some? ==> Prepare(cfg, s, t).value.filled == []
  {
  }

  lemma StepTied(cfg: Config, s: State, d: Directive, c: string)
    requires PlainTxn(d) && Tied(cfg, s, c) && c != "" && Tol(cfg, c) >= 0.0
    requires !ImbalanceReported(Apply(cfg, s, d).diags)
    ensures Tied(cfg, Apply(cfg, s, d), c)
  {
    match d
    case Transaction(_, _, _) => TxnTied(cfg, s, d, c);
    case Balance(_, _, _) =>
      BalanceShape(cfg, s, d);
      if Fires(cfg, s, d) { FirePadTied(cfg, s, d, c); }
    case _ =>
  }

  lemma {:induction false} RunTied(cfg: Config, ds: seq<Directive>, c: string)
    requires PlainStream(ds) && c != "" && Tol(cfg, c) >= 0.0
    requires !ImbalanceReported(Run(cfg, EMPTY, ds).diags)
    ensures Tied(cfg, Run(cfg, EMPTY, ds), c)
  {
    if ds == [] {
      assert KeysOf(EMPTY.bal, c) == {};
    } else {
      var ds', d := ds[..|ds| - 1], ds[|ds| - 1];
      var s := Run(cfg, EMPTY, ds');
      StillReported(cfg, s, d);
      RunTied(cfg, ds', c);
      assert PlainTxn(d);
      StepTied(cfg, s, d, c);
    }
  }

  /**
    Trial balance. When a stream without costs and prices books without an imbalance error, the
    balances of all accounts in a commodity sum to at most the tolerance per booked transaction;
    pads do not add to it.
  */
  lemma TrialBalanceBound(cfg: Config, ds: seq<Directive>, c: string)
    requires PlainStream(ds) && c != "" && Tol(cfg, c) >= 0.0
    requires !ImbalanceReported(Run(cfg, EMPTY, ds).diags)
    ensures TolerancePerTxn(cfg, Run(cfg, EMPTY, ds), c)
  {
    RunTied(cfg, ds, c);
    TiedProduct(cfg, Run(cfg, EMPTY, ds), c);
  }
}
