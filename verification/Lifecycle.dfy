/** Opening and closing accounts over a sorted run. */
module Lifecycle {
  import opened Ast
  import opened Sorting
  import opened Ordering
  import opened Booking

  predicate IsOpenOf(d: Directive, a: string) {
    d.Open? && d.account == a
  }

  predicate IsCloseOf(d: Directive, a: string) {
    d.Close? && d.account == a
  }

  /** An open of the account is dated on or before date. */
  ghost predicate OpenedBy(ds: seq<Directive>, a: string, date: Date) {
    exists i | 0 <= i < |ds| :: IsOpenOf(ds[i], a) && ds[i].meta.date <= date
  }

  /** A close of the account is dated before date. */
  ghost predicate ClosedBefore(ds: seq<Directive>, a: string, date: Date) {
    exists i | 0 <= i < |ds| :: IsCloseOf(ds[i], a) && ds[i].meta.date < date
  }

  /** What a posting on the account dated date should report. */
  ghost function ExpectedDiags(ds: seq<Directive>, date: Date, a: string): Diags {
    (if OpenedBy(ds, a, date) then multiset{} else multiset{NotOpened(a)}) +
    (if ClosedBefore(ds, a, date) then multiset{AfterClose(a)} else multiset{})
  }

  predicate Marks(d: Directive, a: string, opens: bool) {
    if opens then IsOpenOf(d, a) else IsCloseOf(d, a)
  }

  /** The map knows the account iff ds opens (or closes) it, and holds the date of one such directive. */
  ghost predicate DatesFrom(dates: map<string, Date>, ds: seq<Directive>, a: string, opens: bool) {
    && (a in dates <==> exists i | 0 <= i < |ds| :: Marks(ds[i], a, opens))
    && (a in dates ==> exists i | 0 <= i < |ds| :: Marks(ds[i], a, opens) && ds[i].meta.date == dates[a])
  }

  lemma OtherKeepsMaps(cfg: Config, s: State, d: Directive)
    requires !d.Open? && !d.Close?
    ensures Apply(cfg, s, d).open == s.open && Apply(cfg, s, d).close == s.close
  {
    hide BookTxn, BookBalance;
    match d
    case Transaction(_, _, _) => TxnFrame(cfg, s, d);
    case Balance(_, _, _) => BalanceShape(cfg, s, d);
    case _ =>
  }

  lemma DatesStep(dates: map<string, Date>, dates': map<string, Date>, ds: seq<Directive>, d: Directive, a: string,
        opens: bool)
    requires DatesFrom(dates, ds, a, opens)
    requires if Marks(d, a, opens) then a in dates' && (dates'[a] == d.meta.date || (a in dates
          && dates'[a] == dates[a]))
             else (a in dates' <==> a in dates) && (a in dates' ==> dates'[a] == dates[a])
    ensures DatesFrom(dates', ds + [d], a, opens)
  {
    hide Marks;
    var ds' := ds + [d];
    assert ds'[|ds|] == d;
    if a in dates {
      var i :| 0 <= i < |ds| && Marks(ds[i], a, opens) && ds[i].meta.date == dates[a];
      assert Marks(ds'[i], a, opens);
    } else {
      forall i | 0 <= i < |ds| ensures !Marks(ds'[i], a, opens) { assert ds'[i] == ds[i]; }
    }
    assert Marks(d, a, opens) ==> Marks(ds'[|ds|], a, opens);
  }

  lemma {:induction false} RunDates(cfg: Config, ds: seq<Directive>, a: string)
    ensures DatesFrom(Run(cfg, EMPTY, ds).open, ds, a, true) && DatesFrom(Run(cfg, EMPTY, ds).close, ds, a, false)
  {
    hide DatesFrom, BookTxn, BookBalance;
    if ds == [] {
      NoDates(a);
    } else {
      var s, d := Run(cfg, EMPTY, ds[..|ds| - 1]), ds[|ds| - 1];
      RunDates(cfg, ds[..|ds| - 1], a);
      if !d.Open? && !d.Close? { OtherKeepsMaps(cfg, s, d); }
      assert ds == ds[..|ds| - 1] + [d];
      DatesStep(s.open, Apply(cfg, s, d).open, ds[..|ds| - 1], d, a, true);
      DatesStep(s.close, Apply(cfg, s, d).close, ds[..|ds| - 1], d, a, false);
    }
  }

  lemma NoDates(a: string)
    ensures DatesFrom(map[], [], a, true) && DatesFrom(map[], [], a, false)
  {
  }

  /** A directive that posts: a transaction, or a balance whose pad may fire. */
  predicate Posts(d: Directive) {
    d.Transaction? || d.Balance?
  }

  /** What a check at position i of a sorted stream finds, wherever its opens and closes stand. */
  lemma CheckExact(cfg: Config, ds: seq<Directive>, i: nat, a: string)
    requires InOrder(ds) && i < |ds| && Posts(ds[i])
    ensures CheckAccount(Run(cfg, EMPTY, ds[..i]), ds[i].meta.date, a) == ExpectedDiags(ds, ds[i].meta.date, a)
  {
    hide Run;
    var s, date := Run(cfg, EMPTY, ds[..i]), ds[i].meta.date;
    RunDates(cfg, ds[..i], a);
    OpensBefore(ds, i, a);
    ClosesBefore(ds, i, a);
    if a in s.open {
      var k :| 0 <= k < i && Marks(ds[..i][k], a, true) && ds[..i][k].meta.date == s.open[a];
      assert !DirectiveLess(ds[i], ds[k]);
    }
    if a in s.close {
      var k :| 0 <= k < i && Marks(ds[..i][k], a, false) && ds[..i][k].meta.date == s.close[a];
      assert !DirectiveLess(ds[i], ds[k]);
    }
  }

  lemma OpensBefore(ds: seq<Directive>, i: nat, a: string)
    requires InOrder(ds) && i < |ds| && Posts(ds[i])
    ensures OpenedBy(ds, a, ds[i].meta.date) <==> exists k | 0 <= k < i :: Marks(ds[..i][k], a, true)
  {
    if k :| 0 <= k < i && Marks(ds[..i][k], a, true) {
      assert IsOpenOf(ds[k], a) && !DirectiveLess(ds[i], ds[k]);
    }
    if k :| 0 <= k < |ds| && IsOpenOf(ds[k], a) && ds[k].meta.date <= ds[i].meta.date {
      assert DirectiveLess(ds[k], ds[i]);
      assert k < i && Marks(ds[..i][k], a, true);
    }
  }

  lemma ClosesBefore(ds: seq<Directive>, i: nat, a: string)
    requires InOrder(ds) && i < |ds| && Posts(ds[i])
    ensures ClosedBefore(ds, a, ds[i].meta.date) <==> exists k | 0 <= k < i :: Marks(ds[..i][k], a, false)
  {
    if k :| 0 <= k < i && Marks(ds[..i][k], a, false) {
      assert IsCloseOf(ds[k], a) && !DirectiveLess(ds[i], ds[k]);
      assert ds[k].meta.date < ds[i].meta.date;
    }
    if k :| 0 <= k < |ds| && IsCloseOf(ds[k], a) && ds[k].meta.date < ds[i].meta.date {
      assert DirectiveLess(ds[k], ds[i]);
      assert k < i && Marks(ds[..i][k], a, false);
    }
  }

  // ----- never before the open

  ghost predicate NeverEarly(diags: Diags) {
    forall d | d in diags :: !d.BeforeOpen?
  }

  ghost predicate ChecksNeverEarly(s: State, date: Date) {
    forall a :: NeverEarly(CheckAccount(s, date, a))
  }

  lemma NextNeverEarly(cfg: Config, s: State, date: Date, p: Posting, plan: Plan)
    requires ChecksNeverEarly(s, date) && NeverEarly(plan.diags)
    ensures NeverEarly(PlanNext(cfg, s, date, p, plan).diags)
  {
    hide CheckAccount;
    assert NeverEarly(CheckAccount(s, date, p.account));
    var leg := PlanLeg(cfg, s.inv, p);
    assert leg.Bad? ==> !leg.diag.BeforeOpen?;
  }

  lemma {:induction false} PlanNeverEarly(cfg: Config, s: State, date: Date, ps: seq<Posting>)
    requires ChecksNeverEarly(s, date)
    ensures NeverEarly(PlanAll(cfg, s, date, ps).diags)
  {
    hide PlanNext, ChecksNeverEarly;
    if ps != [] {
      PlanNeverEarly(cfg, s, date, ps[..|ps| - 1]);
      NextNeverEarly(cfg, s, date, ps[|ps| - 1], PlanAll(cfg, s, date, ps[..|ps| - 1]));
    }
  }

  lemma UnbalancedNeverEarly(cfg: Config, ws: seq<Weight>)
    ensures NeverEarly(UnbalancedDiags(cfg, ws))
  {
  }

  lemma PreparedNeverEarly(cfg: Config, s: State, t: Directive)
    requires t.Transaction? && ChecksNeverEarly(s, t.meta.date)
    ensures NeverEarly(PlanAll(cfg, s, t.meta.date, t.postings).diags)
    ensures Prepare(cfg, s, t).Some? ==> NeverEarly(Prepare(cfg, s, t).value.diags)
  {
    hide PlanAll, UnbalancedDiags, ChecksNeverEarly;
    PlanNeverEarly(cfg, s, t.meta.date, t.postings);
    PlanLength(cfg, s, t.meta.date, t.postings);
    var plan := PlanAll(cfg, s, t.meta.date, t.postings);
    if plan.Planned? { UnbalancedNeverEarly(cfg, TxnWeights(t.postings, plan.filled)); }
  }

  lemma MoveStopKind(inv: Inventory, ops: seq<InvOp>)
    ensures var stop := Move(inv, ops).stop;
            stop.Some? ==> stop.value.Oversell? || stop.value.CostCommodityMismatch? || stop.value.NoPosition?
  {
    hide BuyPass, SellPass, Oversold;
    PassStops(inv, ops);
    PassStops(BuyPass(inv, ops).inv, ops);
  }

  lemma TxnNeverEarly(cfg: Config, s: State, t: Directive)
    requires t.Transaction? && ChecksNeverEarly(s, t.meta.date) && NeverEarly(s.diags)
    ensures NeverEarly(BookTxn(cfg, s, t).diags)
  {
    hide PlanAll, Prepare, Move, ChecksNeverEarly;
    PreparedNeverEarly(cfg, s, t);
    PrepareSome(cfg, s, t);
    var ready := Prepare(cfg, s, t);
    if ready.Some? { MoveStopKind(s.inv, ready.value.ops); }
  }

  lemma BalanceNeverEarly(cfg: Config, s: State, b: Directive)
    requires b.Balance? && ChecksNeverEarly(s, b.meta.date) && NeverEarly(s.diags)
    ensures NeverEarly(BookBalance(cfg, s, b).diags)
  {
    hide Holds, CheckAccount;
    if b.account in s.pad {
      assert NeverEarly(CheckAccount(s, b.meta.date, s.pad[b.account].fromAccount));
      assert NeverEarly(FirePad(s, b).diags);
    }
  }

  lemma ExpectedNeverEarly(ds: seq<Directive>, date: Date, a: string)
    ensures NeverEarly(ExpectedDiags(ds, date, a))
  {
  }

  /** No posting of a sorted stream is ever reported as before the open of its account. */
  lemma {:induction false} NeverBeforeOpen(cfg: Config, ds: seq<Directive>, n: nat)
    requires InOrder(ds) && n <= |ds|
    ensures NeverEarly(Run(cfg, EMPTY, ds[..n]).diags)
  {
    hide Run, InOrder, NeverEarly, BookTxn, BookBalance, CheckAccount, ExpectedDiags;
    if n == 0 {
      RunEmpty(cfg, ds);
    } else {
      var s, d := Run(cfg, EMPTY, ds[..n - 1]), ds[n - 1];
      NeverBeforeOpen(cfg, ds, n - 1);
      RunNext(cfg, ds, n - 1);
      if Posts(d) {
        forall a ensures NeverEarly(CheckAccount(s, d.meta.date, a)) {
          CheckExact(cfg, ds, n - 1, a);
          ExpectedNeverEarly(ds, d.meta.date, a);
        }
      }
      match d
      case Transaction(_, _, _) => TxnNeverEarly(cfg, s, d);
      case Balance(_, _, _) => BalanceNeverEarly(cfg, s, d);
      case Open(_, account, _, _) => OpenNeverEarly(s, account);
      case _ =>
    }
  }

  lemma OpenNeverEarly(s: State, a: string)
    requires NeverEarly(s.diags)
    ensures NeverEarly(s.diags + multiset{DuplicateOpen(a)})
  {
  }

  lemma RunEmpty(cfg: Config, ds: seq<Directive>)
    ensures Run(cfg, EMPTY, ds[..0]) == EMPTY && NeverEarly(EMPTY.diags)
  {
    assert ds[..0] == [];
  }

  lemma RunNext(cfg: Config, ds: seq<Directive>, n: nat)
    requires n < |ds|
    ensures Run(cfg, EMPTY, ds[..n + 1]) == Apply(cfg, Run(cfg, EMPTY, ds[..n]), ds[n])
  {
    hide Apply;
    assert ds[..n + 1][..n] == ds[..n];
  }

  // ----- the reports of a run

  /** The directive checks account a: a transaction whose earlier postings plan, or a balance whose pad
      fires from a. The padded account itself is never checked. */
  ghost predicate Checks(cfg: Config, s: State, d: Directive, a: string) {
    match d
    case Transaction(meta, _, ps) =>
      exists j | 0 <= j < |ps| :: ps[j].account == a && PlanAll(cfg, s, meta.date, ps[..j]).Planned?
    case Balance(_, account, _) => Fires(cfg, s, d) && s.pad[account].fromAccount == a
    case _ => false
  }

  /** A report that only account checks make. */
  predicate FromCheck(x: Diag) {
    x.NotOpened? || x.AfterClose?
  }

  lemma CheckNames(s: State, date: Date, a: string, x: Diag)
    requires FromCheck(x) && x in CheckAccount(s, date, a)
    ensures x.account == a
  {
  }

  lemma LegNotCheck(cfg: Config, inv: Inventory, p: Posting)
    ensures PlanLeg(cfg, inv, p).Bad? ==> !FromCheck(PlanLeg(cfg, inv, p).diag)
  {
  }

  lemma NextReports(cfg: Config, s: State, date: Date, p: Posting, plan: Plan, x: Diag)
    requires FromCheck(x)
    ensures x in PlanNext(cfg, s, date, p, plan).diags <==>
            x in plan.diags || (plan.Planned? && x in CheckAccount(s, date, p.account))
  {
    hide CheckAccount, PlanLeg;
    LegNotCheck(cfg, s.inv, p);
  }

  /** The posting is checked and the check finds x. */
  predicate Finds(cfg: Config, s: State, date: Date, ps: seq<Posting>, j: int, x: Diag) {
    0 <= j < |ps| && PlanAll(cfg, s, date, ps[..j]).Planned? && x in CheckAccount(s, date, ps[j].account)
  }

  lemma FindsPrefix(cfg: Config, s: State, date: Date, ps: seq<Posting>, j: int, x: Diag)
    requires ps != []
    ensures Finds(cfg, s, date, ps, j, x) && j < |ps| - 1 <==> Finds(cfg, s, date, ps[..|ps| - 1], j, x)
  {
    hide PlanAll, CheckAccount;
    if 0 <= j < |ps| - 1 {
      assert ps[..|ps| - 1][..j] == ps[..j];
    }
  }

  /** The plan reports what the checks of its postings find, up to the posting that aborts it. */
  lemma {:induction false} PlanReports(cfg: Config, s: State, date: Date, ps: seq<Posting>, x: Diag)
    requires FromCheck(x)
    ensures x in PlanAll(cfg, s, date, ps).diags <==> exists j :: Finds(cfg, s, date, ps, j, x)
  {
    hide CheckAccount, PlanNext, FromCheck;
    if ps != [] {
      var n := |ps| - 1;
      PlanReports(cfg, s, date, ps[..n], x);
      NextReports(cfg, s, date, ps[n], PlanAll(cfg, s, date, ps[..n]), x);
      forall j ensures Finds(cfg, s, date, ps, j, x) && j < n <==> Finds(cfg, s, date, ps[..n], j, x) {
        FindsPrefix(cfg, s, date, ps, j, x);
      }
      assert Finds(cfg, s, date, ps, n, x) <==>
             PlanAll(cfg, s, date, ps[..n]).Planned? && x in CheckAccount(s, date, ps[n].account);
    }
  }

  lemma PreparedReports(cfg: Config, s: State, t: Directive, x: Diag)
    requires t.Transaction? && FromCheck(x) && Prepare(cfg, s, t).Some?
    ensures x in Prepare(cfg, s, t).value.diags <==> x in PlanAll(cfg, s, t.meta.date, t.postings).diags
  {
    hide PlanAll, FillResidual, ResidualOps, Unabsorbed, TxnWeights;
    PlanLength(cfg, s, t.meta.date, t.postings);
  }

  lemma CommitSays(s: State, t: Directive, ready: Ready, x: Diag)
    requires t.Transaction? && FromCheck(x)
    ensures x in Commit(s, t, ready).diags <==> x in s.diags || x in ready.diags
  {
    hide Move, PostAll;
    MoveStopKind(s.inv, ready.ops);
  }

  lemma TxnSays(cfg: Config, s: State, t: Directive, x: Diag)
    requires t.Transaction? && FromCheck(x)
    ensures x in BookTxn(cfg, s, t).diags <==> x in s.diags || x in PlanAll(cfg, s, t.meta.date, t.postings).diags
  {
    hide PlanAll, Prepare, Commit;
    PrepareSome(cfg, s, t);
    if Prepare(cfg, s, t).Some? {
      PreparedReports(cfg, s, t, x);
      CommitSays(s, t, Prepare(cfg, s, t).value, x);
    }
  }

  lemma FireSays(s: State, b: Directive, x: Diag)
    requires b.Balance? && b.account in s.pad
    ensures x in FirePad(s, b).diags <==>
            x in s.diags || x in CheckAccount(s, b.meta.date, s.pad[b.account].fromAccount)
  {
    hide CheckAccount;
  }

  lemma FailureNotCheck(s: State, b: Directive, x: Diag)
    requires b.Balance? && FromCheck(x)
    ensures x in Report(s, Failure(s, b)).diags <==> x in s.diags
  {
  }

  lemma BalanceSays(cfg: Config, s: State, b: Directive, x: Diag)
    requires b.Balance? && FromCheck(x)
    ensures x in BookBalance(cfg, s, b).diags <==>
            x in s.diags || (Fires(cfg, s, b) && x in CheckAccount(s, b.meta.date, s.pad[b.account].fromAccount))
  {
    hide CheckAccount, FirePad, Failure, Report, Holds, FromCheck;
    FailureNotCheck(s, b, x);
    HoldingSays(s, b);
    if b.account in s.pad {
      FireSays(s, b, x);
      FailureNotCheck(FirePad(s, b), b, x);
    }
  }

  lemma HoldingSays(s: State, b: Directive)
    requires b.Balance?
    ensures s.(pad := s.pad - {b.account}).diags == s.diags
  {
  }

  /** One step reports exactly what its checks find. */
  lemma StepSays(cfg: Config, s: State, d: Directive, x: Diag)
    requires FromCheck(x)
    ensures x in Apply(cfg, s, d).diags <==>
            x in s.diags || (Checks(cfg, s, d, x.account) && x in CheckAccount(s, d.meta.date, x.account))
  {
    hide BookTxn, BookBalance, CheckAccount, Fires, PlanAll;
    match d
    case Transaction(meta, _, ps) =>
      TxnSays(cfg, s, d, x);
      PlanReports(cfg, s, meta.date, ps, x);
      forall j | Finds(cfg, s, meta.date, ps, j, x) ensures ps[j].account == x.account {
        CheckNames(s, meta.date, ps[j].account, x);
      }
      FoundIsChecked(cfg, s, d, x);
    case Balance(meta, account, _) =>
      BalanceSays(cfg, s, d, x);
      if Fires(cfg, s, d) {
        FiresPending(cfg, s, d);
        if x in CheckAccount(s, meta.date, s.pad[account].fromAccount) {
          CheckNames(s, meta.date, s.pad[account].fromAccount, x);
        }
      }
    case _ =>
  }

  lemma FoundIsChecked(cfg: Config, s: State, t: Directive, x: Diag)
    requires t.Transaction? && FromCheck(x)
    requires forall j | Finds(cfg, s, t.meta.date, t.postings, j, x) :: t.postings[j].account == x.account
    ensures (exists j :: Finds(cfg, s, t.meta.date, t.postings, j, x)) <==>
            Checks(cfg, s, t, x.account) && x in CheckAccount(s, t.meta.date, x.account)
  {
    hide CheckAccount, PlanAll;
    var ps := t.postings;
    if Checks(cfg, s, t, x.account) && x in CheckAccount(s, t.meta.date, x.account) {
      var j :| 0 <= j < |ps| && ps[j].account == x.account && PlanAll(cfg, s, t.meta.date, ps[..j]).Planned?;
      assert Finds(cfg, s, t.meta.date, ps, j, x);
    }
    if j :| Finds(cfg, s, t.meta.date, ps, j, x) {
      assert ps[j].account == x.account;
    }
  }

  lemma FiresPending(cfg: Config, s: State, b: Directive)
    requires b.Balance? && Fires(cfg, s, b)
    ensures b.account in s.pad
  {
  }

  ghost predicate ChecksAt(cfg: Config, ds: seq<Directive>, i: nat, a: string)
    requires i < |ds|
  {
    Checks(cfg, Run(cfg, EMPTY, ds[..i]), ds[i], a)
  }

  lemma {:induction false} RunSays(cfg: Config, ds: seq<Directive>, n: nat, x: Diag)
    requires n <= |ds| && FromCheck(x)
    ensures x in Run(cfg, EMPTY, ds[..n]).diags <==>
            exists i | 0 <= i < n ::
              ChecksAt(cfg, ds, i, x.account)
              && x in CheckAccount(Run(cfg, EMPTY, ds[..i]), ds[i].meta.date, x.account)
  {
    hide Run, Checks, CheckAccount, Apply;
    if n == 0 {
      RunEmpty(cfg, ds);
    } else {
      RunSays(cfg, ds, n - 1, x);
      RunNext(cfg, ds, n - 1);
      StepSays(cfg, Run(cfg, EMPTY, ds[..n - 1]), ds[n - 1], x);
    }
  }

  lemma ChecksPosts(cfg: Config, ds: seq<Directive>, i: nat, a: string)
    requires i < |ds| && ChecksAt(cfg, ds, i, a)
    ensures Posts(ds[i])
  {
  }

  lemma ExpectedHas(ds: seq<Directive>, date: Date, a: string)
    ensures NotOpened(a) in ExpectedDiags(ds, date, a) <==> !OpenedBy(ds, a, date)
    ensures AfterClose(a) in ExpectedDiags(ds, date, a) <==> ClosedBefore(ds, a, date)
  {
    hide OpenedBy, ClosedBefore;
  }

  /**
    Account lifecycle. A sorted run reports an account as not opened exactly when some directive
    checks it and no open of it is dated on or before that directive, and as closed exactly when
    some directive checks it and a close of it is dated before. Checked are the accounts of a
    transaction's postings, as far as they plan, and the source of a pad that fires.
  */
  lemma LifecycleExact(cfg: Config, ds: seq<Directive>, a: string)
    requires InOrder(ds)
    ensures NotOpened(a) in Run(cfg, EMPTY, ds).diags <==>
            exists i | 0 <= i < |ds| :: ChecksAt(cfg, ds, i, a) && !OpenedBy(ds, a, ds[i].meta.date)
    ensures AfterClose(a) in Run(cfg, EMPTY, ds).diags <==>
            exists i | 0 <= i < |ds| :: ChecksAt(cfg, ds, i, a) && ClosedBefore(ds, a, ds[i].meta.date)
  {
    hide Run, CheckAccount, ChecksAt, OpenedBy, ClosedBefore, ExpectedDiags, InOrder, Posts;
    RunSays(cfg, ds, |ds|, NotOpened(a));
    RunSays(cfg, ds, |ds|, AfterClose(a));
    assert ds[..|ds|] == ds;
    forall i | 0 <= i < |ds| && ChecksAt(cfg, ds, i, a)
      ensures NotOpened(a) in CheckAccount(Run(cfg, EMPTY, ds[..i]), ds[i].meta.date, a) <==>
              !OpenedBy(ds, a, ds[i].meta.date)
      ensures AfterClose(a) in CheckAccount(Run(cfg, EMPTY, ds[..i]), ds[i].meta.date, a) <==>
              ClosedBefore(ds, a, ds[i].meta.date)
    {
      ChecksPosts(cfg, ds, i, a);
      CheckExact(cfg, ds, i, a);
      ExpectedHas(ds, ds[i].meta.date, a);
    }
  }

  // ----- runs without errors

  ghost predicate ErrorFree(diags: Diags) {
    forall d | d in diags :: !d.IsError()
  }

  lemma {:induction false} DiagsMonotone(cfg: Config, ds: seq<Directive>, n: nat)
    requires n <= |ds|
    ensures Run(cfg, EMPTY, ds[..n]).diags <= Run(cfg, EMPTY, ds).diags
    decreases |ds| - n
  {
    hide Apply, Run;
    if n == |ds| {
      assert ds[..n] == ds;
    } else {
      RunNext(cfg, ds, n);
      StepGrows(cfg, Run(cfg, EMPTY, ds[..n]), ds[n]);
      DiagsMonotone(cfg, ds, n + 1);
    }
  }

  lemma {:induction false} PlannedChecks(cfg: Config, s: State, date: Date, ps: seq<Posting>, i: nat)
    requires i < |ps| && PlanAll(cfg, s, date, ps).Planned?
    ensures CheckAccount(s, date, ps[i].account) <= PlanAll(cfg, s, date, ps).diags
  {
    hide PlanLeg, CheckAccount;
    if i < |ps| - 1 { PlannedChecks(cfg, s, date, ps[..|ps| - 1], i); }
  }

  lemma {:induction false} AbortIsError(cfg: Config, s: State, date: Date, ps: seq<Posting>)
    ensures var plan := PlanAll(cfg, s, date, ps); plan.Aborted? ==> !ErrorFree(plan.diags)
  {
    hide CheckAccount;
    if ps != [] {
      AbortIsError(cfg, s, date, ps[..|ps| - 1]);
      var plan, p := PlanAll(cfg, s, date, ps[..|ps| - 1]), ps[|ps| - 1];
      if plan.Planned? {
        var leg := PlanLeg(cfg, s.inv, p);
        LegError(cfg, s.inv, p);
        var next := PlanNext(cfg, s, date, p, plan);
        if leg.Bad? { assert leg.diag in next.diags; }
        if leg.Residual? && plan.residual.Some? { assert MultipleResidual in next.diags; }
      }
    }
  }

  lemma LegError(cfg: Config, inv: Inventory, p: Posting)
    ensures PlanLeg(cfg, inv, p).Bad? ==> PlanLeg(cfg, inv, p).diag.IsError()
  {
  }

  lemma TxnChecks(cfg: Config, s: State, t: Directive, i: nat)
    requires t.Transaction? && i < |t.postings| && ErrorFree(BookTxn(cfg, s, t).diags)
    ensures ErrorFree(CheckAccount(s, t.meta.date, t.postings[i].account))
  {
    hide CheckAccount, Move, PlanAll;
    var plan, s' := PlanAll(cfg, s, t.meta.date, t.postings), BookTxn(cfg, s, t);
    TxnReports(cfg, s, t);
    AbortIsError(cfg, s, t.meta.date, t.postings);
    assert ErrorFree(plan.diags);
    PlannedChecks(cfg, s, t.meta.date, t.postings, i);
  }

  lemma CommitReports(s: State, t: Directive, ready: Ready)
    requires t.Transaction?
    ensures ready.diags <= Commit(s, t, ready).diags
  {
    hide Move, PostAll;
  }

  lemma TxnReports(cfg: Config, s: State, t: Directive)
    requires t.Transaction?
    ensures PlanAll(cfg, s, t.meta.date, t.postings).diags <= BookTxn(cfg, s, t).diags
  {
    hide PlanAll, Commit, FillResidual, ResidualOps, UnbalancedDiags;
    PlanLength(cfg, s, t.meta.date, t.postings);
    if Prepare(cfg, s, t).Some? { CommitReports(s, t, Prepare(cfg, s, t).value); }
  }

  /** In a run without errors every balance directive holds at its place, its pad included. */
  lemma BalancesHold(cfg: Config, ds: seq<Directive>, i: nat)
    requires i < |ds| && ds[i].Balance? && ErrorFree(Run(cfg, EMPTY, ds).diags)
    ensures Holds(cfg, Run(cfg, EMPTY, ds[..i + 1]), ds[i])
  {
    hide Run, Holds;
    RunNext(cfg, ds, i);
    DiagsMonotone(cfg, ds, i + 1);
    HoldsOrFails(cfg, Run(cfg, EMPTY, ds[..i]), ds[i]);
  }

  lemma HoldsOrFails(cfg: Config, s: State, b: Directive)
    requires b.Balance?
    ensures Holds(cfg, BookBalance(cfg, s, b), b) || exists x | x in BookBalance(cfg, s, b).diags :: x.IsError()
  {
    var s' := BookBalance(cfg, s, b);
    if !Holds(cfg, s, b) {
      if b.account in s.pad {
        if !Holds(cfg, FirePad(s, b), b) { FailureReported(FirePad(s, b), b); }
      } else {
        FailureReported(s, b);
      }
    }
  }

  lemma FailureReported(s: State, b: Directive)
    requires b.Balance?
    ensures exists x | x in Report(s, Failure(s, b)).diags :: x.IsError()
  {
    var x := BalanceFailed(b.meta, b.account, b.amount, BalOf(s.bal, Key(b.account, b.amount.commodity)));
    assert x in Report(s, Failure(s, b)).diags;
  }

  lemma ClosedIsError(ds: seq<Directive>, date: Date, a: string)
    ensures ClosedBefore(ds, a, date) ==> !ErrorFree(ExpectedDiags(ds, date, a))
  {
    hide ClosedBefore, OpenedBy;
    assert ClosedBefore(ds, a, date) ==> AfterClose(a) in ExpectedDiags(ds, date, a);
  }

  /** In a sorted run without errors no transaction posts to an account closed on an earlier day. */
  lemma PostingNotAfterClose(cfg: Config, ds: seq<Directive>, i: nat, p: nat)
    requires InOrder(ds) && i < |ds| && ds[i].Transaction? && p < |ds[i].postings|
    requires ErrorFree(Run(cfg, EMPTY, ds).diags)
    ensures !ClosedBefore(ds, ds[i].postings[p].account, ds[i].meta.date)
  {
    hide Run, BookTxn, CheckAccount, InOrder, OpenedBy, ClosedBefore;
    var s, a := Run(cfg, EMPTY, ds[..i]), ds[i].postings[p].account;
    RunNext(cfg, ds, i);
    DiagsMonotone(cfg, ds, i + 1);
    TxnChecks(cfg, s, ds[i], p);
    CheckExact(cfg, ds, i, a);
    ClosedIsError(ds, ds[i].meta.date, a);
  }
}
