/** Pad expansion: a pad that fires on a later day is moved back to its own day. */
module Pads {
  import opened Ast
  import opened Sorting
  import opened Ordering
  import opened Booking

  /** The balance fires a pad that is dated on another day. */
  predicate LateFire(cfg: Config, s: State, d: Directive) {
    d.Balance? && Fires(cfg, s, d) && s.pad[d.account].meta.date != d.meta.date
  }

  function PadLeg(account: string, number: real, comm: string): Posting {
    Posting(account, Some(RawAmount(Some(number), comm)), None, None, false)
  }

  /** The transaction a late pad becomes: dated at the pad, for the shortfall at the balance. */
  function PadTxn(pad: PendingPad, b: Directive, diff: real): Directive
    requires b.Balance?
  {
    Transaction(pad.meta, "P", [
      PadLeg(b.account, diff, b.amount.commodity),
      PadLeg(pad.fromAccount, -diff, b.amount.commodity)])
  }

  function LateTxn(cfg: Config, s: State, d: Directive): seq<Directive> {
    if LateFire(cfg, s, d) then [PadTxn(s.pad[d.account], d, Shortfall(s, d))] else []
  }

  /** The transactions for the pads that fire late when ds is booked from s. */
  ghost function Synth(cfg: Config, s: State, ds: seq<Directive>): seq<Directive> {
    if ds == [] then []
    else
      var ds' := ds[..|ds| - 1];
      Synth(cfg, s, ds') + LateTxn(cfg, Run(cfg, s, ds'), ds[|ds| - 1])
  }

  ghost function ExpandPads(cfg: Config, dirs: seq<Directive>): seq<Directive> {
    dirs + Synth(cfg, EMPTY, SortDirectives(dirs))
  }

  ghost function Book(cfg: Config, dirs: seq<Directive>): State {
    Run(cfg, EMPTY, SortDirectives(dirs))
  }

  lemma {:induction false} SynthConcat(cfg: Config, s: State, p: seq<Directive>, q: seq<Directive>)
    ensures Synth(cfg, s, p + q) == Synth(cfg, s, p) + Synth(cfg, Run(cfg, s, p), q)
  {
    hide Apply, LateTxn;
    if q == [] {
      assert p + q == p;
    } else {
      assert (p + q)[..|p + q| - 1] == p + q[..|q| - 1];
      SynthConcat(cfg, s, p, q[..|q| - 1]);
      RunConcat(cfg, s, p, q[..|q| - 1]);
    }
  }

  // ----- two runs that differ by one early pad

  function Delta(a: Key, f: Key, diff: real, k: Key): real {
    (if k == a then diff else 0.0) - (if k == f then diff else 0.0)
  }

  ghost predicate SameFailures(d1: Diags, d2: Diags) {
    forall x: Diag | x.BalanceFailed? :: d1[x] == d2[x]
  }

  ghost predicate SameButBalances(s1: State, s2: State) {
    && s1.inv == s2.inv && s1.open == s2.open && s1.close == s2.close && s1.pad == s2.pad
    && SameFailures(s1.diags, s2.diags)
  }

  /** s2 is s1 with diff already moved from f to a. */
  ghost predicate Shifted(s1: State, s2: State, a: Key, f: Key, diff: real) {
    SameButBalances(s1, s2) && Moved(s1.bal, s2.bal, a, f, diff)
  }

  ghost predicate Moved(b1: Balances, b2: Balances, a: Key, f: Key, diff: real) {
    forall k :: BalOf(b2, k) == BalOf(b1, k) + Delta(a, f, diff, k)
  }

  /** Same balances, lots, accounts, pending pads and balance failures. */
  ghost predicate Agree(s1: State, s2: State) {
    SameButBalances(s1, s2) && forall k :: BalOf(s2.bal, k) == BalOf(s1.bal, k)
  }

  /** The directive does not assert one of the two balances. */
  predicate Apart(d: Directive, a: Key, f: Key, diff: real) {
    diff == 0.0 || (d.Balance? ==> Asserted(d) != a && Asserted(d) != f)
  }

  /** The account and commodity of a balance directive. */
  function Asserted(d: Directive): Key
    requires d.Balance?
  {
    Key(d.account, d.amount.commodity)
  }

  lemma {:induction false} PlanSame(cfg: Config, s1: State, s2: State, date: Date, ps: seq<Posting>)
    requires s1.inv == s2.inv && s1.open == s2.open && s1.close == s2.close
    ensures PlanAll(cfg, s1, date, ps) == PlanAll(cfg, s2, date, ps)
  {
    if ps != [] {
      PlanSame(cfg, s1, s2, date, ps[..|ps| - 1]);
      assert CheckAccount(s1, date, ps[|ps| - 1].account) == CheckAccount(s2, date, ps[|ps| - 1].account);
    }
  }

  lemma {:induction false} PostSame(b1: Balances, b2: Balances, filled: seq<Filled>, k: Key)
    ensures BalOf(PostAll(b2, filled), k) - BalOf(b2, k) == BalOf(PostAll(b1, filled), k) - BalOf(b1, k)
  {
    if filled != [] { PostSame(b1, b2, filled[..|filled| - 1], k); }
  }

  lemma TxnShifts(cfg: Config, s1: State, s2: State, t: Directive, a: Key, f: Key, diff: real)
    requires t.Transaction? && Shifted(s1, s2, a, f, diff)
    ensures Shifted(BookTxn(cfg, s1, t), BookTxn(cfg, s2, t), a, f, diff)
  {
    PlanSame(cfg, s1, s2, t.meta.date, t.postings);
    var ready := Prepare(cfg, s1, t);
    assert ready == Prepare(cfg, s2, t);
    if ready.Some? { CommitShifts(s1, s2, t, ready.value, a, f, diff); }
  }

  lemma CommitShifts(s1: State, s2: State, t: Directive, ready: Ready, a: Key, f: Key, diff: real)
    requires t.Transaction? && Shifted(s1, s2, a, f, diff)
    ensures Shifted(Commit(s1, t, ready), Commit(s2, t, ready), a, f, diff)
  {
    if Move(s1.inv, ready.ops).stop.None? {
      forall k ensures BalOf(PostAll(s2.bal, ready.filled), k)
          == BalOf(PostAll(s1.bal, ready.filled), k) + Delta(a, f, diff, k) {
        PostSame(s1.bal, s2.bal, ready.filled, k);
      }
      assert Moved(PostAll(s1.bal, ready.filled), PostAll(s2.bal, ready.filled), a, f, diff);
    }
  }

  lemma AddMoved(b1: Balances, b2: Balances, k: Key, n: real, a: Key, f: Key, diff: real)
    requires Moved(b1, b2, a, f, diff)
    ensures Moved(AddBal(b1, k, n), AddBal(b2, k, n), a, f, diff)
  {
    forall j ensures BalOf(AddBal(b2, k, n), j) == BalOf(AddBal(b1, k, n), j) + Delta(a, f, diff, j) {
      assert BalOf(b2, j) == BalOf(b1, j) + Delta(a, f, diff, j);
    }
  }

  lemma AddFailures(d1: Diags, d2: Diags, x: Diags)
    requires SameFailures(d1, d2)
    ensures SameFailures(d1 + x, d2 + x)
  {
  }

  /** An asserted balance is the same in both runs, so it holds in both or in neither. */
  lemma SameAsserted(cfg: Config, s1: State, s2: State, b: Directive, a: Key, f: Key, diff: real)
    requires b.Balance? && Shifted(s1, s2, a, f, diff) && Apart(b, a, f, diff)
    ensures BalOf(s1.bal, Key(b.account, b.amount.commodity)) == BalOf(s2.bal, Key(b.account, b.amount.commodity))
    ensures Holds(cfg, s1, b) == Holds(cfg, s2, b)
    ensures Shifted(Report(s1, Failure(s1, b)), Report(s2, Failure(s2, b)), a, f, diff)
  {
    var k := Key(b.account, b.amount.commodity);
    assert Delta(a, f, diff, k) == 0.0;
    AddFailures(s1.diags, s2.diags, Failure(s1, b));
  }

  lemma FirePadShifts(s1: State, s2: State, b: Directive, a: Key, f: Key, diff: real)
    requires b.Balance? && Shifted(s1, s2, a, f, diff) && Apart(b, a, f, diff) && b.account in s1.pad
    ensures Shifted(FirePad(s1, b), FirePad(s2, b), a, f, diff)
  {
    hide Moved, Holds;
    SameAsserted(FRESH, s1, s2, b, a, f, diff);
    var pad, comm, n := s1.pad[b.account], b.amount.commodity, Shortfall(s1, b);
    AddFailures(s1.diags, s2.diags, CheckAccount(s1, b.meta.date, pad.fromAccount));
    AddMoved(s1.bal, s2.bal, Key(b.account, comm), n, a, f, diff);
    AddMoved(AddBal(s1.bal, Key(b.account, comm), n), AddBal(s2.bal, Key(b.account, comm), n),
             Key(pad.fromAccount, comm), -n, a, f, diff);
  }

  lemma BalanceShifts(cfg: Config, s1: State, s2: State, b: Directive, a: Key, f: Key, diff: real)
    requires b.Balance? && Shifted(s1, s2, a, f, diff) && Apart(b, a, f, diff)
    ensures Shifted(BookBalance(cfg, s1, b), BookBalance(cfg, s2, b), a, f, diff)
  {
    SameAsserted(cfg, s1, s2, b, a, f, diff);
    if !Holds(cfg, s1, b) && b.account in s1.pad {
      FirePadShifts(s1, s2, b, a, f, diff);
      SameAsserted(cfg, FirePad(s1, b), FirePad(s2, b), b, a, f, diff);
    }
  }

  lemma LateSame(cfg: Config, s1: State, s2: State, d: Directive, a: Key, f: Key, diff: real)
    requires Shifted(s1, s2, a, f, diff) && Apart(d, a, f, diff)
    ensures LateTxn(cfg, s1, d) == LateTxn(cfg, s2, d)
  {
    if d.Balance? { SameAsserted(cfg, s1, s2, d, a, f, diff); }
  }

  lemma StepShifts(cfg: Config, s1: State, s2: State, d: Directive, a: Key, f: Key, diff: real)
    requires Shifted(s1, s2, a, f, diff) && Apart(d, a, f, diff)
    ensures Shifted(Apply(cfg, s1, d), Apply(cfg, s2, d), a, f, diff)
  {
    hide BookTxn, BookBalance;
    match d
    case Transaction(_, _, _) => TxnShifts(cfg, s1, s2, d, a, f, diff);
    case Balance(_, _, _) => BalanceShifts(cfg, s1, s2, d, a, f, diff);
    case Open(_, _, _, _) => AddFailures(s1.diags, s2.diags, multiset{DuplicateOpen(d.account)});
    case _ =>
  }

  lemma {:induction false} RunShifts(cfg: Config, s1: State, s2: State, ds: seq<Directive>, a: Key, f: Key, diff: real)
    requires Shifted(s1, s2, a, f, diff) && forall d | d in ds :: Apart(d, a, f, diff)
    ensures Shifted(Run(cfg, s1, ds), Run(cfg, s2, ds), a, f, diff)
    ensures Synth(cfg, s1, ds) == Synth(cfg, s2, ds)
  {
    if ds != [] {
      var ds' := ds[..|ds| - 1];
      RunShifts(cfg, s1, s2, ds', a, f, diff);
      StepShifts(cfg, Run(cfg, s1, ds'), Run(cfg, s2, ds'), ds[|ds| - 1], a, f, diff);
      LateSame(cfg, Run(cfg, s1, ds'), Run(cfg, s2, ds'), ds[|ds| - 1], a, f, diff);
    }
  }

  // ----- what a late pad tells about the stream

  /** A pad or a balance on the account. */
  predicate Concerns(d: Directive, a: string) {
    (d.Pad? || d.Balance?) && d.account == a
  }

  /** A pending pad was put down by a pad directive, with no pad or balance on the account since. */
  lemma {:induction false} PendingSince(cfg: Config, ds: seq<Directive>, a: string) returns (q: nat)
    requires a in Run(cfg, EMPTY, ds).pad
    ensures q < |ds| && ds[q].Pad? && ds[q].account == a
    ensures Run(cfg, EMPTY, ds).pad[a] == PendingPad(ds[q].meta, ds[q].fromAccount)
    ensures forall k | q < k < |ds| :: !Concerns(ds[k], a)
  {
    hide BookTxn, BookBalance, Synth;
    var n := |ds| - 1;
    PadKept(cfg, Run(cfg, EMPTY, ds[..n]), ds[n], a);
    if ds[n].Pad? && ds[n].account == a {
      q := n;
    } else {
      q := PendingSince(cfg, ds[..n], a);
    }
  }

  lemma PadKept(cfg: Config, s: State, d: Directive, a: string)
    requires a in Apply(cfg, s, d).pad
    ensures if d.Pad? && d.account == a then Apply(cfg, s, d).pad[a] == PendingPad(d.meta, d.fromAccount)
            else a in s.pad && Apply(cfg, s, d).pad[a] == s.pad[a] && !(d.Balance? && d.account == a)
  {
    hide BookTxn;
    match d
    case Transaction(_, _, _) => TxnFrame(cfg, s, d);
    case Balance(_, _, _) => BalanceShape(cfg, s, d);
    case _ =>
  }

  /** No lot on account a. */
  ghost predicate NoLots(inv: Inventory, a: string) {
    forall k | k in inv :: k.account != a
  }

  /** No posting of the directive on account a carries a cost or a price. */
  predicate Unpriced(d: Directive, a: string) {
    d.Transaction? ==> forall i | 0 <= i < |d.postings| && d.postings[i].account == a ::
      d.postings[i].cost.None? && d.postings[i].price.None?
  }

  ghost predicate Untouched(ops: seq<InvOp>, a: string) {
    forall i | 0 <= i < |ops| :: ops[i].key.account != a
  }

  lemma LegUntouched(cfg: Config, inv: Inventory, p: Posting, a: string)
    requires NoLots(inv, a) && (p.account == a ==> p.cost.None? && p.price.None?)
    ensures var leg := PlanLeg(cfg, inv, p); leg.Good? && leg.op.Some? ==> leg.op.value.key.account != a
  {
  }

  lemma NextUntouched(cfg: Config, s: State, date: Date, p: Posting, plan: Plan, a: string)
    requires NoLots(s.inv, a) && (p.account == a ==> p.cost.None? && p.price.None?)
    requires plan.Planned? ==> Untouched(plan.ops, a)
    ensures var next := PlanNext(cfg, s, date, p, plan); next.Planned? ==> Untouched(next.ops, a)
  {
    LegUntouched(cfg, s.inv, p, a);
  }

  lemma {:induction false} PlanUntouched(cfg: Config, s: State, date: Date, ps: seq<Posting>, a: string)
    requires NoLots(s.inv, a)
    requires forall i | 0 <= i < |ps| && ps[i].account == a :: ps[i].cost.None? && ps[i].price.None?
    ensures var plan := PlanAll(cfg, s, date, ps); plan.Planned? ==> Untouched(plan.ops, a)
  {
    if ps != [] {
      PlanUntouched(cfg, s, date, ps[..|ps| - 1], a);
      NextUntouched(cfg, s, date, ps[|ps| - 1], PlanAll(cfg, s, date, ps[..|ps| - 1]), a);
    }
  }

  lemma {:induction false} ResidualUntouched(inv: Inventory, filled: seq<Filled>, ops: seq<InvOp>, a: string)
    requires NoLots(inv, a) && Untouched(ops, a)
    ensures Untouched(ResidualOps(inv, filled, ops), a)
  {
    if filled != [] {
      ResidualUntouched(inv, filled[..|filled| - 1], ops, a);
      var ops' := ResidualOps(inv, filled[..|filled| - 1], ops);
      assert Untouched(ResidualOp(inv, filled[|filled| - 1], ops'), a);
    }
  }

  lemma {:induction false} PassesUntouched(inv: Inventory, ops: seq<InvOp>, a: string)
    requires NoLots(inv, a) && Untouched(ops, a)
    ensures NoLots(BuyPass(inv, ops).inv, a) && NoLots(SellPass(inv, ops).inv, a)
  {
    if ops != [] { PassesUntouched(inv, ops[..|ops| - 1], a); }
  }

  lemma MoveUntouched(inv: Inventory, ops: seq<InvOp>, a: string)
    requires NoLots(inv, a) && Untouched(ops, a)
    ensures NoLots(Move(inv, ops).inv, a)
  {
    hide BuyPass, SellPass, Oversold;
    PassesUntouched(inv, ops, a);
    PassesUntouched(BuyPass(inv, ops).inv, ops, a);
  }

  lemma TxnNoLots(cfg: Config, s: State, t: Directive, a: string)
    requires t.Transaction? && NoLots(s.inv, a) && Unpriced(t, a)
    ensures NoLots(BookTxn(cfg, s, t).inv, a)
  {
    hide PlanAll, Move;
    if Prepare(cfg, s, t).Some? {
      PreparedUntouched(cfg, s, t, a);
      MoveUntouched(s.inv, Prepare(cfg, s, t).value.ops, a);
    }
  }

  lemma PreparedUntouched(cfg: Config, s: State, t: Directive, a: string)
    requires t.Transaction? && NoLots(s.inv, a) && Unpriced(t, a) && Prepare(cfg, s, t).Some?
    ensures Untouched(Prepare(cfg, s, t).value.ops, a)
  {
    var plan := PlanAll(cfg, s, t.meta.date, t.postings);
    PlanUntouched(cfg, s, t.meta.date, t.postings, a);
    PlanLength(cfg, s, t.meta.date, t.postings);
    if plan.residual.Some? {
      ResidualUntouched(s.inv, FillResidual(cfg, plan.filled, plan.residual.value, TxnWeights(t.postings,
          plan.filled)), plan.ops, a);
    }
  }

  /** An account without costs and prices never holds a lot. */
  lemma {:induction false} RunNoLots(cfg: Config, ds: seq<Directive>, a: string)
    requires forall d | d in ds :: Unpriced(d, a)
    ensures NoLots(Run(cfg, EMPTY, ds).inv, a)
  {
    if ds != [] {
      var s, d := Run(cfg, EMPTY, ds[..|ds| - 1]), ds[|ds| - 1];
      RunNoLots(cfg, ds[..|ds| - 1], a);
      assert d in ds;
      match d
      case Transaction(_, _, _) => TxnNoLots(cfg, s, d, a);
      case Balance(_, _, _) => BalanceShape(cfg, s, d);
      case _ =>
    }
  }

  // ----- booking one early pad

  lemma EarlyLeg(cfg: Config, inv: Inventory, account: string, n: real, comm: string)
    requires NoLots(inv, account) && !Blank(comm)
    ensures PlanLeg(cfg, inv, PadLeg(account, n, comm))
          == Good(Filled(account, Some(Amount(n, comm)), None, false), None)
  {
  }

  ghost predicate NoFailure(diags: Diags) {
    forall x | x in diags :: !x.BalanceFailed?
  }

  lemma EarlyNext(cfg: Config, s: State, date: Date, p: Posting, plan: Plan, fp: Filled)
    requires plan.Planned? && NoFailure(plan.diags) && PlanLeg(cfg, s.inv, p) == Good(fp, None)
    ensures var next := PlanNext(cfg, s, date, p, plan);
            next == Planned(plan.filled + [fp], plan.ops, plan.residual, next.diags) && NoFailure(next.diags)
  {
    assert NoFailure(CheckAccount(s, date, p.account));
  }

  lemma EarlyPlan(cfg: Config, s: State, pad: PendingPad, b: Directive, diff: real)
    requires b.Balance? && !Blank(b.amount.commodity)
    requires NoLots(s.inv, b.account) && NoLots(s.inv, pad.fromAccount)
    ensures var plan := PlanAll(cfg, s, pad.meta.date, PadTxn(pad, b, diff).postings);
            plan == Planned(PadLine(pad, b, diff).filled, [], None, plan.diags) && NoFailure(plan.diags)
  {
    var ps, legs, date := PadTxn(pad, b, diff).postings, PadLine(pad, b, diff).filled, pad.meta.date;
    var none := Planned([], [], None, multiset{});
    EarlyLeg(cfg, s.inv, b.account, diff, b.amount.commodity);
    EarlyLeg(cfg, s.inv, pad.fromAccount, -diff, b.amount.commodity);
    EarlyNext(cfg, s, date, ps[0], none, legs[0]);
    EarlyNext(cfg, s, date, ps[1], PlanNext(cfg, s, date, ps[0], none), legs[1]);
    PlanTwo(cfg, s, date, ps[0], ps[1]);
    assert [] + [legs[0]] + [legs[1]] == legs;
  }

  /** Booking the early pad moves its amount and nothing else. */
  lemma EarlyPad(cfg: Config, s: State, pad: PendingPad, b: Directive, diff: real)
    requires b.Balance? && !Blank(b.amount.commodity)
    requires NoLots(s.inv, b.account) && NoLots(s.inv, pad.fromAccount)
    ensures var a, f := Key(b.account, b.amount.commodity), Key(pad.fromAccount, b.amount.commodity);
            Shifted(s, Apply(cfg, s, PadTxn(pad, b, diff)), a, f, diff)
  {
    hide PlanAll, PlanNext, SumFor, Weights;
    var t := PadTxn(pad, b, diff);
    EarlyPlan(cfg, s, pad, b, diff);
    var plan := PlanAll(cfg, s, pad.meta.date, t.postings);
    var ready := Prepare(cfg, s, t).value;
    assert ready.filled == plan.filled && ready.ops == [];
    assert Move(s.inv, []) == Pass(s.inv, None);
    EarlyCommit(s, t, ready, pad, b, diff);
    forall x: Diag | x.BalanceFailed? ensures ready.diags[x] == 0 {
      assert x !in plan.diags && x !in UnbalancedDiags(cfg, TxnWeights(t.postings, plan.filled));
    }
  }

  lemma EarlyCommit(s: State, t: Directive, ready: Ready, pad: PendingPad, b: Directive, diff: real)
    requires t.Transaction? && b.Balance? && Move(s.inv, ready.ops) == Pass(s.inv, None)
    requires ready.filled == PadLine(pad, b, diff).filled && b.amount.commodity != ""
    ensures Moved(s.bal, Commit(s, t, ready).bal, Key(b.account, b.amount.commodity), Key(pad.fromAccount,
          b.amount.commodity), diff)
    ensures Commit(s, t, ready)
          == s.(bal := Commit(s, t, ready).bal, txns := Commit(s, t, ready).txns, diags := s.diags + ready.diags)
  {
    PostTwo(s.bal, ready.filled[0], ready.filled[1]);
    assert ready.filled == [ready.filled[0], ready.filled[1]];
  }

  /** At the balance, the run with the early pad finds the balance holding, and both runs agree. */
  lemma LateBalance(cfg: Config, s1: State, s2: State, b: Directive)
    requires LateFire(cfg, s1, b) && Tol(cfg, b.amount.commodity) >= 0.0 && s1.pad[b.account].fromAccount != b.account
    requires Shifted(s1, s2, Key(b.account, b.amount.commodity), Key(s1.pad[b.account].fromAccount,
          b.amount.commodity), Shortfall(s1, b))
    ensures Agree(Apply(cfg, s1, b), Apply(cfg, s2, b)) && !LateFire(cfg, s2, b)
  {
    var a, f := Key(b.account, b.amount.commodity), Key(s1.pad[b.account].fromAccount, b.amount.commodity);
    var diff := Shortfall(s1, b);
    assert BalOf(s2.bal, a) == BalOf(s1.bal, a) + Delta(a, f, diff, a);
    assert Holds(cfg, s2, b);
    var p := FirePad(s1, b);
    assert Holds(cfg, p, b);
    forall k ensures BalOf(s2.bal, k) == BalOf(p.bal, k) {
      assert BalOf(s2.bal, k) == BalOf(s1.bal, k) + Delta(a, f, diff, k);
    }
    assert SameFailures(CheckAccount(s1, b.meta.date, s1.pad[b.account].fromAccount), multiset{});
  }

  // ----- moving the first late pad

  /** The pad at x is the one pending on its account when the balance at y comes. */
  predicate PendsAt(ds: seq<Directive>, x: int, y: int) {
    && 0 <= x < y < |ds| && ds[x].Pad? && ds[y].Balance? && ds[y].account == ds[x].account
    && forall m | x < m < y :: !Concerns(ds[m], ds[x].account)
  }

  /** No balance after the pad's day and before the balance at y asserts the source of the pad at x in
      the commodity of the balance at y. */
  predicate SourceQuiet(ds: seq<Directive>, x: int, y: int)
    requires 0 <= x < y < |ds| && ds[x].Pad? && ds[y].Balance?
  {
    && ds[x].fromAccount != ds[x].account
    && forall m | x < m < y && ds[m].Balance? && ds[m].meta.date > ds[x].meta.date ::
         Asserted(ds[m]) != Key(ds[x].fromAccount, ds[y].amount.commodity)
  }

  ghost predicate SourcesQuiet(ds: seq<Directive>) {
    forall x, y {:trigger PendsAt(ds, x, y)} | PendsAt(ds, x, y) && ds[x].meta.date != ds[y].meta.date ::
      SourceQuiet(ds, x, y)
  }

  /** Padded accounts and their sources carry no cost or price, and balances name a commodity. */
  ghost predicate PlainPads(ds: seq<Directive>) {
    forall d, p {:trigger ApartPair(d, p)} | d in ds && p in ds :: ApartPair(d, p)
  }

  predicate ApartPair(d: Directive, p: Directive) {
    && (d.Balance? ==> !Blank(d.amount.commodity))
    && (p.Pad? ==> Unpriced(d, p.account) && Unpriced(d, p.fromAccount))
  }

  /**
    What the rewrite needs of a stream: padded accounts and their sources carry no cost or price,
    balances name a commodity, and while a pad waits for a balance of a later day no balance after
    the pad's day asserts its source in that balance's commodity.
  */
  ghost predicate PadsApart(dirs: seq<Directive>) {
    PlainPads(dirs) && SourcesQuiet(SortDirectives(dirs))
  }

  ghost predicate SaneTol(cfg: Config) {
    forall c :: Tol(cfg, c) >= 0.0
  }

  lemma {:induction false} FirstLate(cfg: Config, ds: seq<Directive>) returns (j: nat)
    requires Synth(cfg, EMPTY, ds) != []
    ensures j < |ds| && Synth(cfg, EMPTY, ds[..j]) == [] && LateFire(cfg, Run(cfg, EMPTY, ds[..j]), ds[j])
  {
    var n := |ds| - 1;
    if Synth(cfg, EMPTY, ds[..n]) != [] {
      j := FirstLate(cfg, ds[..n]);
      assert ds[..n][..j] == ds[..j];
    } else {
      j := n;
    }
  }

  /** Where the early transaction lands: after its pad's day, with no balance on the account before b. */
  lemma EarlyPlace(cfg: Config, ds: seq<Directive>, j: nat, t: Directive, u: seq<Directive>) returns (i: nat, q: nat)
    requires InOrder(ds) && WeakOrder(u, DirectiveLess) && Within(ds, u) && t in u
    requires j < |ds| && LateFire(cfg, Run(cfg, EMPTY, ds[..j]), ds[j])
    requires var s := Run(cfg, EMPTY, ds[..j]); t == PadTxn(s.pad[ds[j].account], ds[j], Shortfall(s, ds[j]))
    ensures i <= j && Insert(ds, t, DirectiveLess) == ds[..i] + [t] + ds[i..]
    ensures q < i && PendsAt(ds, q, j) && ds[q].meta.date != ds[j].meta.date
    ensures ds[q].fromAccount == Run(cfg, EMPTY, ds[..j]).pad[ds[j].account].fromAccount
    ensures forall k | i <= k < j && ds[k].Balance? :: ds[k].meta.date > ds[q].meta.date
  {
    i := InsertSplits(ds, t, DirectiveLess, u);
    q := PendingSince(cfg, ds[..j], ds[j].account);
    assert DirectiveLess(ds[q], t) && !DirectiveLess(t, ds[q]);
    assert q < i;
    assert !DirectiveLess(ds[j], ds[q]);
    assert DirectiveLess(t, ds[j]);
    forall k | q < k < j ensures !Concerns(ds[k], ds[q].account) {
      assert ds[..j][k] == ds[k];
    }
    forall k | i <= k < j && ds[k].Balance? ensures ds[k].meta.date > ds[q].meta.date {
      assert DirectiveLess(t, ds[k]);
    }
  }

  lemma AgreeAfter(cfg: Config, s1: State, s2: State, ds: seq<Directive>)
    requires Agree(s1, s2)
    ensures Agree(Run(cfg, s1, ds), Run(cfg, s2, ds)) && Synth(cfg, s1, ds) == Synth(cfg, s2, ds)
  {
    var k := Key("", "");
    assert Shifted(s1, s2, k, k, 0.0);
    RunShifts(cfg, s1, s2, ds, k, k, 0.0);
    ZeroShift(Run(cfg, s1, ds), Run(cfg, s2, ds), k);
  }

  lemma ZeroShift(s1: State, s2: State, k: Key)
    requires Shifted(s1, s2, k, k, 0.0)
    ensures Agree(s1, s2)
  {
    forall j ensures BalOf(s2.bal, j) == BalOf(s1.bal, j) { assert Delta(k, k, 0.0, j) == 0.0; }
  }

  /** The directive asserts neither the account of b nor the source in the commodity of b. */
  predicate Clear(d: Directive, b: Directive, from: string)
    requires b.Balance?
  {
    d.Balance? ==> d.account != b.account && Asserted(d) != Key(from, b.amount.commodity)
  }

  /** From s1, booking the early pad t and then y meets b holding, and both runs agree after b. */
  lemma Overtaken(cfg: Config, s1: State, t: Directive, y: seq<Directive>, b: Directive)
    requires var y1 := Run(cfg, s1, y);
             LateFire(cfg, y1, b) && t == PadTxn(y1.pad[b.account], b, Shortfall(y1, b))
             && y1.pad[b.account].fromAccount != b.account
             && NoLots(s1.inv, b.account) && NoLots(s1.inv, y1.pad[b.account].fromAccount)
             && forall d | d in y :: Clear(d, b, y1.pad[b.account].fromAccount)
    requires !Blank(b.amount.commodity) && Tol(cfg, b.amount.commodity) >= 0.0
    ensures var y2 := Run(cfg, Apply(cfg, s1, t), y);
            && Synth(cfg, Apply(cfg, s1, t), y) == Synth(cfg, s1, y) && LateTxn(cfg, y2, b) == []
            && Agree(Apply(cfg, Run(cfg, s1, y), b), Apply(cfg, y2, b))
  {
    var y1, s2 := Run(cfg, s1, y), Apply(cfg, s1, t);
    var pad, diff := y1.pad[b.account], Shortfall(y1, b);
    EarlyPad(cfg, s1, pad, b, diff);
    RunShifts(cfg, s1, s2, y, Key(b.account, b.amount.commodity), Key(pad.fromAccount, b.amount.commodity), diff);
    LateBalance(cfg, y1, Run(cfg, s2, y), b);
  }

  lemma RunOne(cfg: Config, s: State, d: Directive)
    ensures Run(cfg, s, [d]) == Apply(cfg, s, d) && Synth(cfg, s, [d]) == LateTxn(cfg, s, d)
  {
    assert [d][..0] == [];
    assert Run(cfg, s, []) == s && Synth(cfg, s, []) == [];
  }

  lemma PiecesTail(cfg: Config, s: State, y: seq<Directive>, b: Directive, z: seq<Directive>)
    ensures var y1 := Run(cfg, s, y);
            && Run(cfg, s, y + [b] + z) == Run(cfg, Apply(cfg, y1, b), z)
            && Synth(cfg, s, y + [b] + z) == Synth(cfg, s, y) + LateTxn(cfg, y1, b) + Synth(cfg, Apply(cfg, y1, b), z)
  {
    RunConcat(cfg, s, y + [b], z);
    SynthConcat(cfg, s, y + [b], z);
    RunConcat(cfg, s, y, [b]);
    SynthConcat(cfg, s, y, [b]);
    RunOne(cfg, Run(cfg, s, y), b);
  }

  lemma FirstIs(cfg: Config, x: seq<Directive>, b: Directive, z: seq<Directive>, ds: seq<Directive>)
    requires ds == x + [b] + z && Synth(cfg, EMPTY, x) == []
    ensures var b1 := Apply(cfg, Run(cfg, EMPTY, x), b);
            && Synth(cfg, EMPTY, ds) == LateTxn(cfg, Run(cfg, EMPTY, x), b) + Synth(cfg, b1, z)
            && Run(cfg, EMPTY, ds) == Run(cfg, b1, z)
  {
    PiecesTail(cfg, EMPTY, x, b, z);
    var late := LateTxn(cfg, Run(cfg, EMPTY, x), b);
    assert [] + late == late;
  }

  /** Nothing fires late in either part of a stretch in which nothing fires late. */
  lemma Stretch(cfg: Config, x: seq<Directive>, y: seq<Directive>, xy: seq<Directive>)
    requires xy == x + y && Synth(cfg, EMPTY, xy) == []
    ensures Synth(cfg, EMPTY, x) == [] && Synth(cfg, Run(cfg, EMPTY, x), y) == []
    ensures Run(cfg, EMPTY, xy) == Run(cfg, Run(cfg, EMPTY, x), y)
  {
    RunConcat(cfg, EMPTY, x, y);
    SynthConcat(cfg, EMPTY, x, y);
  }

  /** Booking x, the early pad, y, b and z agrees with booking x, y, b and z; b no longer fires. */
  lemma WithEarly(cfg: Config, x: seq<Directive>, t: Directive, y: seq<Directive>, b: Directive, z: seq<Directive>)
    requires !t.Balance? && Synth(cfg, EMPTY, x) == [] && Synth(cfg, Run(cfg, EMPTY, x), y) == []
    requires var s1 := Run(cfg, EMPTY, x);
             var s2 := Apply(cfg, s1, t);
             && Synth(cfg, s2, y) == Synth(cfg, s1, y) && LateTxn(cfg, Run(cfg, s2, y), b) == []
             && Agree(Apply(cfg, Run(cfg, s1, y), b), Apply(cfg, Run(cfg, s2, y), b))
    ensures var b1 := Apply(cfg, Run(cfg, Run(cfg, EMPTY, x), y), b);
            && Agree(Run(cfg, b1, z), Run(cfg, EMPTY, x + [t] + (y + [b] + z)))
            && Synth(cfg, EMPTY, x + [t] + (y + [b] + z)) == Synth(cfg, b1, z)
  {
    var s1 := Run(cfg, EMPTY, x);
    var s2 := Apply(cfg, s1, t);
    AgreeAfter(cfg, Apply(cfg, Run(cfg, s1, y), b), Apply(cfg, Run(cfg, s2, y), b), z);
    PiecesTail(cfg, EMPTY, x, t, y + [b] + z);
    PiecesTail(cfg, s2, y, b, z);
    assert LateTxn(cfg, s1, t) == [];
  }

  /** Inserting the first late pad's transaction into the sorted stream. */
  lemma InsertFirstLate(cfg: Config, ds: seq<Directive>, t: Directive, rest: seq<Directive>, u: seq<Directive>)
    requires InOrder(ds) && WeakOrder(u, DirectiveLess) && Within(ds, u) && SaneTol(cfg)
    requires PlainPads(ds) && SourcesQuiet(ds)
    requires Synth(cfg, EMPTY, ds) == [t] + rest && t in u
    ensures var ds' := Insert(ds, t, DirectiveLess);
            Agree(Run(cfg, EMPTY, ds), Run(cfg, EMPTY, ds')) && Synth(cfg, EMPTY, ds') == rest
  {
    hide Run, Synth, Apply, PlainPads, SourcesQuiet;
    var j := FirstLate(cfg, ds);
    var late, b1 := LateTxn(cfg, Run(cfg, EMPTY, ds[..j]), ds[j]), Apply(cfg, Run(cfg, EMPTY, ds[..j]), ds[j]);
    assert ds == ds[..j] + [ds[j]] + ds[j + 1..];
    FirstIs(cfg, ds[..j], ds[j], ds[j + 1..], ds);
    SameHead(late, Synth(cfg, b1, ds[j + 1..]), t, rest);
    InsertLateAt(cfg, ds, j, u);
  }

  lemma SameHead(p: seq<Directive>, q: seq<Directive>, t: Directive, rest: seq<Directive>)
    requires |p| == 1 && p + q == [t] + rest
    ensures p == [t] && q == rest
  {
    assert (p + q)[0] == p[0] && ([t] + rest)[0] == t;
    assert q == (p + q)[1..] && rest == ([t] + rest)[1..];
  }

  lemma InsertLateAt(cfg: Config, ds: seq<Directive>, j: nat, u: seq<Directive>)
    requires InOrder(ds) && WeakOrder(u, DirectiveLess) && Within(ds, u) && SaneTol(cfg)
    requires PlainPads(ds) && SourcesQuiet(ds)
    requires j < |ds| && Synth(cfg, EMPTY, ds[..j]) == [] && LateFire(cfg, Run(cfg, EMPTY, ds[..j]), ds[j])
    requires LateTxn(cfg, Run(cfg, EMPTY, ds[..j]), ds[j])[0] in u
    ensures var s := Run(cfg, EMPTY, ds[..j]);
            var t := LateTxn(cfg, s, ds[j])[0];
            var ds' := Insert(ds, t, DirectiveLess);
            && Agree(Run(cfg, Apply(cfg, s, ds[j]), ds[j + 1..]), Run(cfg, EMPTY, ds'))
            && Synth(cfg, EMPTY, ds') == Synth(cfg, Apply(cfg, s, ds[j]), ds[j + 1..])
  {
    hide Run, Synth, Apply, InOrder, WeakOrder, Within, PlainPads, SourcesQuiet, PendsAt, Insert;
    var s, b := Run(cfg, EMPTY, ds[..j]), ds[j];
    var t := LateTxn(cfg, s, b)[0];
    var i, q := EarlyPlace(cfg, ds, j, t, u);
    assert ds[..j] == ds[..i] + ds[i..j];
    assert ds[i..] == ds[i..j] + [b] + ds[j + 1..];
    Stretch(cfg, ds[..i], ds[i..j], ds[..j]);
    SourcesApart(cfg, ds, i, q, j);
    Overtaken(cfg, Run(cfg, EMPTY, ds[..i]), t, ds[i..j], b);
    WithEarly(cfg, ds[..i], t, ds[i..j], b, ds[j + 1..]);
  }

  /** What EarlyPlace and PadsApart say about the accounts of the late pad at j. */
  lemma SourcesApart(cfg: Config, ds: seq<Directive>, i: nat, q: nat, j: nat)
    requires PlainPads(ds) && SourcesQuiet(ds)
    requires q < i <= j < |ds| && PendsAt(ds, q, j) && ds[q].meta.date != ds[j].meta.date
    requires forall k | i <= k < j && ds[k].Balance? :: ds[k].meta.date > ds[q].meta.date
    ensures var b, from := ds[j], ds[q].fromAccount;
            && from != b.account && !Blank(b.amount.commodity)
            && NoLots(Run(cfg, EMPTY, ds[..i]).inv, b.account) && NoLots(Run(cfg, EMPTY, ds[..i]).inv, from)
            && forall d | d in ds[i..j] :: Clear(d, b, from)
  {
    hide Run;
    var b, from := ds[j], ds[q].fromAccount;
    assert SourceQuiet(ds, q, j);
    assert ds[q] in ds && b in ds && ApartPair(b, ds[q]);
    forall d | d in ds[..i] ensures Unpriced(d, b.account) && Unpriced(d, from) {
      assert d in ds && ApartPair(d, ds[q]);
    }
    RunNoLots(cfg, ds[..i], b.account);
    RunNoLots(cfg, ds[..i], from);
    forall d | d in ds[i..j] ensures Clear(d, b, from) {
      var k :| i <= k < j && ds[k] == d;
      assert !Concerns(ds[k], b.account);
    }
  }

  // ----- moving them all

  predicate EarlyTxn(d: Directive) {
    d.Transaction? && forall i | 0 <= i < |d.postings| :: d.postings[i].cost.None? && d.postings[i].price.None?
  }

  lemma {:induction false} SynthEarly(cfg: Config, s: State, ds: seq<Directive>)
    ensures forall d | d in Synth(cfg, s, ds) :: EarlyTxn(d)
  {
    if ds != [] { SynthEarly(cfg, s, ds[..|ds| - 1]); }
  }

  lemma ApartWithEarly(dirs: seq<Directive>, early: seq<Directive>, ds: seq<Directive>)
    requires PlainPads(dirs) && Within(ds, dirs + early) && forall d | d in early :: EarlyTxn(d)
    ensures PlainPads(ds)
  {
    forall d, p | d in ds && p in ds ensures ApartPair(d, p) {
      assert d in dirs || EarlyTxn(d);
      assert p in dirs || EarlyTxn(p);
      if d in dirs && p in dirs { assert ApartPair(d, p); }
      if d in dirs { assert ApartPair(d, d); }
    }
  }

  /** A directive put between others changes no pad's wait, unless it is a pad or a balance itself. */
  lemma QuietInserted(ds: seq<Directive>, i: nat, t: Directive)
    requires SourcesQuiet(ds) && i <= |ds| && !t.Pad? && !t.Balance?
    ensures SourcesQuiet(ds[..i] + [t] + ds[i..])
  {
    var ds' := ds[..i] + [t] + ds[i..];
    forall x, y | PendsAt(ds', x, y) && ds'[x].meta.date != ds'[y].meta.date ensures SourceQuiet(ds', x, y) {
      QuietShifted(ds, ds', i, t, x, y);
    }
  }

  lemma QuietShifted(ds: seq<Directive>, ds': seq<Directive>, i: nat, t: Directive, x: int, y: int)
    requires SourcesQuiet(ds) && i <= |ds| && !t.Pad? && !t.Balance? && ds' == ds[..i] + [t] + ds[i..]
    requires PendsAt(ds', x, y) && ds'[x].meta.date != ds'[y].meta.date
    ensures SourceQuiet(ds', x, y)
  {
    var x', y' := if x < i then x else x - 1, if y < i then y else y - 1;
    assert x != i && y != i && ds[x'] == ds'[x] && ds[y'] == ds'[y];
    forall m | x' < m < y' ensures !Concerns(ds[m], ds[x'].account) {
      assert ds[m] == ds'[if m < i then m else m + 1];
    }
    assert PendsAt(ds, x', y');
    assert SourceQuiet(ds, x', y');
    forall m | x < m < y && ds'[m].Balance? && ds'[m].meta.date > ds'[x].meta.date
      ensures Asserted(ds'[m]) != Key(ds'[x].fromAccount, ds'[y].amount.commodity)
    {
      assert ds'[m] == ds[if m < i then m else m - 1];
    }
  }

  lemma QuietInsert(ds: seq<Directive>, t: Directive, u: seq<Directive>)
    requires SourcesQuiet(ds) && EarlyTxn(t)
    requires Sorted(ds, DirectiveLess) && WeakOrder(u, DirectiveLess) && Within(ds, u) && t in u
    ensures SourcesQuiet(Insert(ds, t, DirectiveLess))
  {
    hide SourcesQuiet, WeakOrder, Insert;
    var i := InsertSplits(ds, t, DirectiveLess, u);
    QuietInserted(ds, i, t);
  }

  lemma {:induction false} QuietSoFar(dirs: seq<Directive>, early: seq<Directive>, m: nat)
    requires SourcesQuiet(SortDirectives(dirs)) && m <= |early| && forall d | d in early :: EarlyTxn(d)
    requires WeakOrder(dirs + early, DirectiveLess)
    ensures SourcesQuiet(SortDirectives(dirs + early[..m]))
    decreases m
  {
    hide SourcesQuiet, WeakOrder, Insert, Sort, EarlyTxn, Sorted;
    if m == 0 {
      assert dirs + early[..0] == dirs;
    } else {
      QuietSoFar(dirs, early, m - 1);
      NextMoved(dirs, early, m - 1);
      SortSorted(dirs + early[..m - 1], DirectiveLess, dirs + early);
      SortElements(dirs + early[..m - 1], DirectiveLess);
      QuietInsert(SortDirectives(dirs + early[..m - 1]), early[m - 1], dirs + early);
    }
  }

  /** After the first m late pads have been moved, exactly the others still fire late. */
  lemma {:induction false} MovePads(cfg: Config, dirs: seq<Directive>, m: nat)
    requires PadsApart(dirs) && SaneTol(cfg) && WeakOrder(ExpandPads(cfg, dirs), DirectiveLess)
    requires m <= |Synth(cfg, EMPTY, SortDirectives(dirs))|
    ensures var early := Synth(cfg, EMPTY, SortDirectives(dirs));
            var ds := SortDirectives(dirs + early[..m]);
            Agree(Book(cfg, dirs), Run(cfg, EMPTY, ds)) && Synth(cfg, EMPTY, ds) == early[m..]
  {
    hide Run, Synth, Apply, InOrder, WeakOrder, Within, PadsApart, PlainPads, SourcesQuiet, Insert, Sort, SaneTol;
    var early := Synth(cfg, EMPTY, SortDirectives(dirs));
    if m == 0 {
      assert dirs + early[..0] == dirs;
    } else {
      MovePads(cfg, dirs, m - 1);
      var ds, t := SortDirectives(dirs + early[..m - 1]), early[m - 1];
      MovedSoFar(cfg, dirs, m - 1);
      assert early[m - 1..] == [t] + early[m..];
      InsertFirstLate(cfg, ds, t, early[m..], dirs + early);
      NextMoved(dirs, early, m - 1);
      var ds' := Insert(ds, t, DirectiveLess);
      AgreeTrans(Book(cfg, dirs), Run(cfg, EMPTY, ds), Run(cfg, EMPTY, ds'));
    }
  }

  lemma NextMoved(dirs: seq<Directive>, early: seq<Directive>, m: nat)
    requires m < |early|
    ensures SortDirectives(dirs + early[..m + 1]) == Insert(SortDirectives(dirs + early[..m]), early[m], DirectiveLess)
  {
    SortSnoc(dirs + early[..m], early[m], DirectiveLess);
    assert dirs + early[..m] + [early[m]] == dirs + early[..m + 1];
  }

  lemma AgreeTrans(s1: State, s2: State, s3: State)
    requires Agree(s1, s2) && Agree(s2, s3)
    ensures Agree(s1, s3)
  {
  }

  lemma MovedSoFar(cfg: Config, dirs: seq<Directive>, m: nat)
    requires PadsApart(dirs) && WeakOrder(ExpandPads(cfg, dirs), DirectiveLess)
          && m <= |Synth(cfg, EMPTY, SortDirectives(dirs))|
    ensures var early := Synth(cfg, EMPTY, SortDirectives(dirs));
            var ds := SortDirectives(dirs + early[..m]);
            InOrder(ds) && Within(ds, dirs + early) && PlainPads(ds) && SourcesQuiet(ds)
  {
    hide Run, Synth, Apply, PlainPads, SourcesQuiet;
    var early := Synth(cfg, EMPTY, SortDirectives(dirs));
    SortSorted(dirs + early[..m], DirectiveLess, dirs + early);
    SortElements(dirs + early[..m], DirectiveLess);
    SynthEarly(cfg, EMPTY, SortDirectives(dirs));
    ApartWithEarly(dirs, early, SortDirectives(dirs + early[..m]));
    QuietSoFar(dirs, early, m);
  }

  /**
    Pad expansion preserves meaning. Booking the expanded stream reaches the same balances, lots,
    open and closed accounts and pending pads, and reports the same failed balances; and no pad
    of the expanded stream fires late.
  */
  lemma ExpandPadsPreserves(cfg: Config, dirs: seq<Directive>)
    requires PadsApart(dirs) && SaneTol(cfg) && LinesComparable(ExpandPads(cfg, dirs))
    ensures Agree(Book(cfg, dirs), Book(cfg, ExpandPads(cfg, dirs)))
    ensures Synth(cfg, EMPTY, SortDirectives(ExpandPads(cfg, dirs))) == []
  {
    var early := Synth(cfg, EMPTY, SortDirectives(dirs));
    OrderIsWeak(ExpandPads(cfg, dirs));
    MovePads(cfg, dirs, |early|);
    assert early[..|early|] == early;
  }

  /** So expanding twice is expanding once. */
  lemma ExpandPadsIdempotent(cfg: Config, dirs: seq<Directive>)
    requires PadsApart(dirs) && SaneTol(cfg) && LinesComparable(ExpandPads(cfg, dirs))
    ensures ExpandPads(cfg, ExpandPads(cfg, dirs)) == ExpandPads(cfg, dirs)
  {
    ExpandPadsPreserves(cfg, dirs);
  }

  // ----- what the expansion adds

  /** The transaction stands at the pad and moves one amount, of the balance's commodity, from the source of the
      pad to its account; the balance is on the account, later than the pad, and of another day. */
  ghost predicate MovesPad(t: Directive, pad: Directive, b: Directive) {
    && t.Transaction? && pad.Pad? && b.Balance? && b.account == pad.account && b.meta.date != pad.meta.date
    && t.meta == pad.meta && t.flag == "P" && |t.postings| == 2
    && exists n :: t.postings == [
         Posting(pad.account, Some(RawAmount(Some(n), b.amount.commodity)), None, None, false),
         Posting(pad.fromAccount, Some(RawAmount(Some(-n), b.amount.commodity)), None, None, false)]
  }

  lemma {:induction false} SynthMovesPads(cfg: Config, ds: seq<Directive>, t: Directive)
    requires t in Synth(cfg, EMPTY, ds)
    ensures exists x, y | 0 <= x < y < |ds| :: MovesPad(t, ds[x], ds[y])
  {
    hide Run, LateTxn, MovesPad;
    var n := |ds| - 1;
    if t in Synth(cfg, EMPTY, ds[..n]) {
      SynthMovesPads(cfg, ds[..n], t);
      var x, y :| 0 <= x < y < n && MovesPad(t, ds[..n][x], ds[..n][y]);
      assert MovesPad(t, ds[x], ds[y]);
    } else {
      var q := LateMovesPad(cfg, ds, t);
      assert MovesPad(t, ds[q], ds[n]);
    }
  }

  lemma LateMovesPad(cfg: Config, ds: seq<Directive>, t: Directive) returns (q: nat)
    requires ds != [] && t in LateTxn(cfg, Run(cfg, EMPTY, ds[..|ds| - 1]), ds[|ds| - 1])
    ensures q < |ds| - 1 && MovesPad(t, ds[q], ds[|ds| - 1])
  {
    hide Run;
    var n := |ds| - 1;
    var s := Run(cfg, EMPTY, ds[..n]);
    q := PendingSince(cfg, ds[..n], ds[n].account);
    assert t == PadTxn(s.pad[ds[n].account], ds[n], Shortfall(s, ds[n]));
  }

  /** Everything that expansion adds is the move of a pad of the stream, for a later balance of the stream. */
  lemma ExpansionMovesPads(cfg: Config, dirs: seq<Directive>, t: Directive)
    requires t in ExpandPads(cfg, dirs) && t !in dirs
    ensures exists pad, b | pad in dirs && b in dirs :: MovesPad(t, pad, b)
  {
    hide MovesPad, Synth, Sort;
    var ds := SortDirectives(dirs);
    SynthMovesPads(cfg, ds, t);
    SortElements(dirs, DirectiveLess);
    var x, y :| 0 <= x < y < |ds| && MovesPad(t, ds[x], ds[y]);
    assert ds[x] in dirs && ds[y] in dirs;
  }

  // ----- why a waiting pad's source must not be asserted

  const THE_PAD := Pad(Day(1), "A", "E")
  const SOURCE_BALANCE := Balance(Day(2), "E", Amount(0.0, "USD"))
  const LATE_BALANCE := Balance(Day(3), "A", Amount(10.0, "USD"))
  const EARLY_PAD := PadTxn(PendingPad(Day(1), "E"), LATE_BALANCE, 10.0)

  ghost predicate SomeFailed(diags: Diags) {
    exists x | x in diags :: x.BalanceFailed?
  }

  lemma RunThree(cfg: Config, x: Directive, y: Directive, z: Directive)
    ensures Run(cfg, EMPTY, [x]) == Apply(cfg, EMPTY, x)
    ensures Run(cfg, EMPTY, [x, y]) == Apply(cfg, Apply(cfg, EMPTY, x), y)
    ensures Run(cfg, EMPTY, [x, y, z]) == Apply(cfg, Apply(cfg, Apply(cfg, EMPTY, x), y), z)
  {
    hide Apply;
    assert [x, y, z][..2] == [x, y] && [x, y][..1] == [x] && [x][..0] == [];
  }

  lemma SortThree(x: Directive, y: Directive, z: Directive)
    requires !DirectiveLess(y, x) && !DirectiveLess(z, y)
    ensures SortDirectives([x, y, z]) == [x, y, z]
  {
    hide DirectiveLess;
    assert [x, y, z][..2] == [x, y] && [x, y][..1] == [x] && [x][..0] == [];
    assert Sort([x], DirectiveLess) == [x];
    assert Sort([x, y], DirectiveLess) == [x, y];
  }

  const PENDING := EMPTY.(pad := map["A" := PendingPad(Day(1), "E")])

  lemma PadPends()
    ensures Apply(FRESH, EMPTY, THE_PAD) == PENDING
    ensures Apply(FRESH, PENDING, SOURCE_BALANCE) == PENDING
    ensures !LateFire(FRESH, PENDING, SOURCE_BALANCE)
  {
    assert PENDING.pad - {"E"} == PENDING.pad;
  }

  lemma PadFiresLate()
    ensures LateTxn(FRESH, PENDING, LATE_BALANCE) == [EARLY_PAD]
    ensures !SomeFailed(Apply(FRESH, PENDING, LATE_BALANCE).diags)
  {
    hide CheckAccount;
    assert Shortfall(PENDING, LATE_BALANCE) == 10.0;
    NoFailedCheck(PENDING, Day(3).date, "E");
  }

  lemma NoFailedCheck(s: State, date: Date, account: string)
    ensures !SomeFailed(CheckAccount(s, date, account))
  {
  }

  /** In the written order the source's balance holds, and the pad fires late. */
  lemma WrittenOrderHolds()
    ensures var dirs := [THE_PAD, SOURCE_BALANCE, LATE_BALANCE];
            !SomeFailed(Book(FRESH, dirs).diags) && ExpandPads(FRESH, dirs) == dirs + [EARLY_PAD]
  {
    hide Apply, LateTxn, LateFire;
    SortThree(THE_PAD, SOURCE_BALANCE, LATE_BALANCE);
    RunThree(FRESH, THE_PAD, SOURCE_BALANCE, LATE_BALANCE);
    PadPends();
    PadFiresLate();
    SynthThree(FRESH, THE_PAD, SOURCE_BALANCE, LATE_BALANCE);
  }

  lemma SourceFails(s: State)
    requires BalOf(s.bal, Key("E", "USD")) == -10.0 && "E" !in s.pad
    ensures SomeFailed(Apply(FRESH, s, SOURCE_BALANCE).diags)
  {
    var x := BalanceFailed(Day(2), "E", Amount(0.0, "USD"), -10.0);
    assert x in Apply(FRESH, s, SOURCE_BALANCE).diags;
  }

  lemma EarlyMoves()
    ensures var s := Apply(FRESH, PENDING, EARLY_PAD);
            BalOf(s.bal, Key("E", "USD")) == -10.0 && s.pad == PENDING.pad
  {
    hide Apply;
    assert !Blank("USD") by { assert !IsSpace("USD"[0]); }
    EarlyPad(FRESH, PENDING, PendingPad(Day(1), "E"), LATE_BALANCE, 10.0);
    assert BalOf(PENDING.bal, Key("E", "USD")) == 0.0;
  }

  /** The early pad is booked before the source's balance. */
  lemma ExpandedOrder()
    ensures SortDirectives([THE_PAD, SOURCE_BALANCE, LATE_BALANCE] + [EARLY_PAD])
         == [THE_PAD, EARLY_PAD, SOURCE_BALANCE, LATE_BALANCE]
  {
    var dirs := [THE_PAD, SOURCE_BALANCE, LATE_BALANCE];
    SortThree(THE_PAD, SOURCE_BALANCE, LATE_BALANCE);
    SortSnoc(dirs, EARLY_PAD, DirectiveLess);
    assert dirs[..2] == [THE_PAD, SOURCE_BALANCE] && dirs[..2][..1] == [THE_PAD];
    assert Insert([THE_PAD], EARLY_PAD, DirectiveLess) == [THE_PAD, EARLY_PAD];
    assert Insert(dirs[..2], EARLY_PAD, DirectiveLess) == [THE_PAD, EARLY_PAD, SOURCE_BALANCE];
  }

  /** A source that is asserted between the pad and the balance: expansion breaks its balance. */
  lemma AssertedSourceBreaks()
    ensures var dirs := [THE_PAD, SOURCE_BALANCE, LATE_BALANCE];
            !SomeFailed(Book(FRESH, dirs).diags) && SomeFailed(Book(FRESH, ExpandPads(FRESH, dirs)).diags)
  {
    hide Apply, ExpandPads;
    WrittenOrderHolds();
    ExpandedOrder();
    PadPends();
    EarlyMoves();
    var s := Apply(FRESH, PENDING, EARLY_PAD);
    SourceFails(s);
    RunThree(FRESH, THE_PAD, EARLY_PAD, SOURCE_BALANCE);
    var ds := [THE_PAD, EARLY_PAD, SOURCE_BALANCE, LATE_BALANCE];
    assert ds[..3] == [THE_PAD, EARLY_PAD, SOURCE_BALANCE];
    StepGrows(FRESH, Run(FRESH, EMPTY, ds[..3]), LATE_BALANCE);
    assert Run(FRESH, EMPTY, ds) == Apply(FRESH, Run(FRESH, EMPTY, ds[..3]), LATE_BALANCE);
  }

  lemma SynthThree(cfg: Config, x: Directive, y: Directive, z: Directive)
    requires x.Pad? && !LateFire(cfg, Apply(cfg, EMPTY, x), y)
    ensures Synth(cfg, EMPTY, [x, y, z]) == LateTxn(cfg, Apply(cfg, Apply(cfg, EMPTY, x), y), z)
  {
    hide Apply, LateFire;
    RunThree(cfg, x, y, z);
    assert [x, y, z][..2] == [x, y] && [x, y][..1] == [x] && [x][..0] == [];
    assert LateTxn(cfg, Run(cfg, EMPTY, []), x) == [] by { PadIsNotLate(cfg, Run(cfg, EMPTY, []), x); }
    assert Synth(cfg, EMPTY, [x]) == Synth(cfg, EMPTY, []) + LateTxn(cfg, Run(cfg, EMPTY, []), x);
    assert Synth(cfg, EMPTY, [x, y]) == [];
  }

  lemma PadIsNotLate(cfg: Config, s: State, x: Directive)
    requires x.Pad?
    ensures !LateFire(cfg, s, x)
  {
  }
}
