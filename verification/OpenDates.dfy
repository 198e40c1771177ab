/** The dates a run keeps for accounts: the first open, the last close, and opens written twice. */
module OpenDates {
  import opened Ast
  import opened Booking
  import opened Lifecycle

  predicate FirstOpen(ds: seq<Directive>, i: int, a: string) {
    0 <= i < |ds| && IsOpenOf(ds[i], a) && forall j | 0 <= j < i :: !IsOpenOf(ds[j], a)
  }

  predicate LastClose(ds: seq<Directive>, i: int, a: string) {
    0 <= i < |ds| && IsCloseOf(ds[i], a) && forall j | i < j < |ds| :: !IsCloseOf(ds[j], a)
  }

  /** The opens of the account. */
  function Opens(ds: seq<Directive>, a: string): nat {
    if ds == [] then 0 else Opens(ds[..|ds| - 1], a) + if IsOpenOf(ds[|ds| - 1], a) then 1 else 0
  }

  // ----- only an open reports a second open

  predicate NoDuplicates(diags: Diags, a: string) {
    diags[DuplicateOpen(a)] == 0
  }

  lemma NextNoDuplicates(cfg: Config, s: State, date: Date, p: Posting, plan: Plan, a: string)
    requires NoDuplicates(plan.diags, a)
    ensures NoDuplicates(PlanNext(cfg, s, date, p, plan).diags, a)
  {
    assert NoDuplicates(CheckAccount(s, date, p.account), a);
    var leg := PlanLeg(cfg, s.inv, p);
    assert leg.Bad? ==> !leg.diag.DuplicateOpen?;
  }

  lemma {:induction false} PlanNoDuplicates(cfg: Config, s: State, date: Date, ps: seq<Posting>, a: string)
    ensures NoDuplicates(PlanAll(cfg, s, date, ps).diags, a)
  {
    hide PlanNext;
    if ps != [] {
      PlanNoDuplicates(cfg, s, date, ps[..|ps| - 1], a);
      NextNoDuplicates(cfg, s, date, ps[|ps| - 1], PlanAll(cfg, s, date, ps[..|ps| - 1]), a);
    }
  }

  lemma UnbalancedNoDuplicates(cfg: Config, ws: seq<Weight>, a: string)
    ensures NoDuplicates(UnbalancedDiags(cfg, ws), a)
  {
  }

  lemma TxnNoDuplicates(cfg: Config, s: State, t: Directive, a: string)
    requires t.Transaction?
    ensures BookTxn(cfg, s, t).diags[DuplicateOpen(a)] == s.diags[DuplicateOpen(a)]
  {
    hide PlanAll, Prepare, Move, UnbalancedDiags;
    PlanNoDuplicates(cfg, s, t.meta.date, t.postings, a);
    PlanLength(cfg, s, t.meta.date, t.postings);
    PrepareSome(cfg, s, t);
    var plan := PlanAll(cfg, s, t.meta.date, t.postings);
    if plan.Planned? {
      PreparedNoDuplicates(cfg, s, t, a);
      MoveStopKind(s.inv, Prepare(cfg, s, t).value.ops);
    }
  }

  lemma PreparedNoDuplicates(cfg: Config, s: State, t: Directive, a: string)
    requires t.Transaction? && Prepare(cfg, s, t).Some?
    requires NoDuplicates(PlanAll(cfg, s, t.meta.date, t.postings).diags, a)
    ensures NoDuplicates(Prepare(cfg, s, t).value.diags, a)
  {
    hide PlanAll, UnbalancedDiags;
    PlanLength(cfg, s, t.meta.date, t.postings);
    UnbalancedNoDuplicates(cfg, TxnWeights(t.postings, PlanAll(cfg, s, t.meta.date, t.postings).filled), a);
  }

  lemma FireNoDuplicates(s: State, b: Directive, a: string)
    requires b.Balance? && b.account in s.pad
    ensures FirePad(s, b).diags[DuplicateOpen(a)] == s.diags[DuplicateOpen(a)]
  {
    var more := CheckAccount(s, b.meta.date, s.pad[b.account].fromAccount);
    assert NoDuplicates(more, a);
    hide CheckAccount;
    assert FirePad(s, b).diags == s.diags + more;
  }

  lemma BalanceNoDuplicates(cfg: Config, s: State, b: Directive, a: string)
    requires b.Balance?
    ensures BookBalance(cfg, s, b).diags[DuplicateOpen(a)] == s.diags[DuplicateOpen(a)]
  {
    hide Holds, FirePad;
    if b.account in s.pad { FireNoDuplicates(s, b, a); }
  }

  /** One step: what it does to the dates of an account and to its reports of a second open. */
  lemma StepDates(cfg: Config, s: State, d: Directive, a: string)
    ensures var s' := Apply(cfg, s, d);
            && (if IsOpenOf(d, a) && a !in s.open then a in s'.open && s'.open[a] == d.meta.date
                else (a in s'.open <==> a in s.open) && (a in s.open ==> s'.open[a] == s.open[a]))
            && (if IsCloseOf(d, a) then a in s'.close && s'.close[a] == d.meta.date
                else (a in s'.close <==> a in s.close) && (a in s.close ==> s'.close[a] == s.close[a]))
            && s'.diags[DuplicateOpen(a)] == s.diags[DuplicateOpen(a)] + if IsOpenOf(d, a) && a in s.open then 1 else 0
  {
    hide BookTxn, BookBalance;
    if !d.Open? && !d.Close? { OtherKeepsMaps(cfg, s, d); }
    match d
    case Transaction(_, _, _) => TxnNoDuplicates(cfg, s, d, a);
    case Balance(_, _, _) => BalanceNoDuplicates(cfg, s, d, a);
    case _ =>
  }

  /**
    In every run, an account is open since its first open in the stream and closed since its last close, and a
    second open is reported once for every open after the first; a later open changes nothing else.
  */
  lemma {:induction false} DatesExactly(cfg: Config, ds: seq<Directive>, a: string)
    ensures var s := Run(cfg, EMPTY, ds);
            && (a in s.open <==> Opens(ds, a) > 0) && (a in s.close <==> exists i :: LastClose(ds, i, a))
            && (forall i | FirstOpen(ds, i, a) :: a in s.open && s.open[a] == ds[i].meta.date)
            && (forall i | LastClose(ds, i, a) :: s.close[a] == ds[i].meta.date)
            && s.diags[DuplicateOpen(a)] == if Opens(ds, a) > 0 then Opens(ds, a) - 1 else 0
  {
    hide Apply, IsOpenOf, IsCloseOf;
    if ds != [] {
      var n, before, d := |ds| - 1, ds[..|ds| - 1], ds[|ds| - 1];
      DatesExactly(cfg, before, a);
      StepDates(cfg, Run(cfg, EMPTY, before), d, a);
      forall i | FirstOpen(ds, i, a) && i < n ensures FirstOpen(before, i, a) {}
      NoneBefore(ds, a);
      if IsCloseOf(d, a) { assert LastClose(ds, n, a); }
      forall i | i != n ensures LastClose(ds, i, a) <==> LastClose(before, i, a) && !IsCloseOf(d, a) {
        ClosePrefix(ds, i, a);
      }
    }
  }

  lemma ClosePrefix(ds: seq<Directive>, i: int, a: string)
    requires ds != [] && i != |ds| - 1
    ensures LastClose(ds, i, a) <==> LastClose(ds[..|ds| - 1], i, a) && !IsCloseOf(ds[|ds| - 1], a)
  {
    hide IsCloseOf;
    var n := |ds| - 1;
    if LastClose(ds[..n], i, a) && !IsCloseOf(ds[n], a) {
      forall j | i < j < |ds| ensures !IsCloseOf(ds[j], a) { assert j < n ==> ds[..n][j] == ds[j]; }
    }
  }

  /** A first open at the end of the stream is the only one. */
  lemma {:induction false} NoneBefore(ds: seq<Directive>, a: string)
    requires ds != []
    ensures FirstOpen(ds, |ds| - 1, a) ==> Opens(ds[..|ds| - 1], a) == 0
  {
    if FirstOpen(ds, |ds| - 1, a) { NoOpens(ds[..|ds| - 1], a); }
  }

  lemma {:induction false} NoOpens(ds: seq<Directive>, a: string)
    requires forall j | 0 <= j < |ds| :: !IsOpenOf(ds[j], a)
    ensures Opens(ds, a) == 0
  {
    if ds != [] { NoOpens(ds[..|ds| - 1], a); }
  }
}
