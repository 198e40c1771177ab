/** Expansion of interest-bearing accounts into pads, and the fixed point it reaches. */
module AutoInterest {
  import opened Ast
  import opened Sorting

  datatype AutoAccount = AutoAccount(
    account: string,
    openMeta: Meta,
    closeDate: Option<Date>,
    currencies: seq<string>,
    rate: InterestRate,
    income: string)

  /** The interest-bearing accounts of a stream, in order of their first open. */
  datatype Collected = Collected(order: seq<string>, byAcct: map<string, AutoAccount>)

  /** Income counterpart of an asset account. */
  function IncomeAccount(asset: string): string {
    if "Assets" <= asset then "Income:Passivo" + asset[|"Assets"|..] else "Income:Passivo:" + asset
  }

  predicate Relevant(d: Directive) {
    d.Close? || (d.Open? && d.interest.Some?)
  }

  function CollectStep(c: Collected, d: Directive): Collected {
    match d
    case Open(meta, account, currencies, interest) =>
      if interest.None? then c
      else
        var a := AutoAccount(account, meta, None, currencies, interest.value, IncomeAccount(account));
        Collected(if account in c.byAcct then c.order else c.order + [account], c.byAcct[account := a])
    case Close(meta, account) =>
      if account !in c.byAcct then c
      else c.(byAcct := c.byAcct[account := c.byAcct[account].(closeDate := Some(meta.date))])
    case _ => c
  }

  function Collect(dirs: seq<Directive>): Collected {
    if dirs == [] then Collected([], map[]) else CollectStep(Collect(dirs[..|dirs| - 1]), dirs[|dirs| - 1])
  }

  function OpenedIn(dirs: seq<Directive>): set<string> {
    set d | d in dirs && d.Open? :: d.account
  }

  /** Opens for the income counterparts that have none, and all accounts opened after them. */
  datatype IncomeOpens = IncomeOpens(opens: seq<Directive>, known: set<string>)

  function OpenIncome(c: Collected, order: seq<string>, known: set<string>): IncomeOpens
    requires forall i | 0 <= i < |order| :: order[i] in c.byAcct
  {
    if order == [] then IncomeOpens([], known)
    else
      var r := OpenIncome(c, order[..|order| - 1], known);
      var a := c.byAcct[order[|order| - 1]];
      if a.income in r.known then r
      else IncomeOpens(r.opens + [Open(a.openMeta, a.income, a.currencies, None)], r.known + {a.income})
  }

  function ZeroKey(account: string, comm: string): string {
    account + "|" + comm
  }

  predicate IsZero(d: Directive) {
    d.Balance? && d.amount.number == 0.0
  }

  function ZeroKeys(dirs: seq<Directive>): set<string> {
    set d | d in dirs && IsZero(d) :: ZeroKey(d.account, d.amount.commodity)
  }

  function AutoPad(a: AutoAccount, meta: Meta): Directive {
    var date := if meta.date == 0 || meta.date - 1 < a.openMeta.date then a.openMeta.date else meta.date - 1;
    Pad(meta.(date := date), a.account, a.income)
  }

  /** Accounts with a pad since their last balance, zero balances seen, and the stream written. */
  datatype Pass = Pass(pending: set<string>, zero: set<string>, out: seq<Directive>)

  function Emit(p: Pass, d: Directive): Pass {
    p.(out := p.out + [d])
  }

  function PadBefore(p: Pass, a: AutoAccount, meta: Meta): Pass {
    if a.account in p.pending then p else Emit(p, AutoPad(a, meta))
  }

  function ZeroBalance(account: string, meta: Meta, comm: string): Directive {
    Balance(meta, account, Amount(0.0, comm))
  }

  function CloseCurrencies(p: Pass, a: AutoAccount, meta: Meta, ccys: seq<string>): Pass {
    if ccys == [] then p
    else
      var q, ccy := CloseCurrencies(p, a, meta, ccys[..|ccys| - 1]), ccys[|ccys| - 1];
      var key := ZeroKey(a.account, ccy);
      if key in q.zero then q
      else
        var r := Emit(PadBefore(q, a, meta), ZeroBalance(a.account, meta, ccy));
        r.(pending := r.pending - {a.account}, zero := r.zero + {key})
  }

  function PassStep(ai: map<string, AutoAccount>, p: Pass, d: Directive): Pass {
    match d
    case Pad(_, account, _) => Emit(p.(pending := p.pending + {account}), d)
    case Balance(meta, account, amount) =>
      if account !in ai then Emit(p, d)
      else
        var q := Emit(PadBefore(p, ai[account], meta), d);
        q.(pending := q.pending - {account},
           zero := if amount.number == 0.0 then q.zero + {ZeroKey(account, amount.commodity)} else q.zero)
    case Close(meta, account) =>
      if account !in ai then Emit(p, d)
      else Emit(CloseCurrencies(p, ai[account], meta, ai[account].currencies), d)
    case _ => Emit(p, d)
  }

  function RunPass(ai: map<string, AutoAccount>, p: Pass, dirs: seq<Directive>): Pass {
    if dirs == [] then p else PassStep(ai, RunPass(ai, p, dirs[..|dirs| - 1]), dirs[|dirs| - 1])
  }

  lemma {:induction false} OrderKnown(dirs: seq<Directive>)
    ensures forall i | 0 <= i < |Collect(dirs).order| :: Collect(dirs).order[i] in Collect(dirs).byAcct
  {
    if dirs != [] { OrderKnown(dirs[..|dirs| - 1]); }
  }

  function WithIncome(dirs: seq<Directive>): seq<Directive> {
    OrderKnown(dirs);
    OpenIncome(Collect(dirs), Collect(dirs).order, OpenedIn(dirs)).opens + dirs
  }

  function ExpandAutoInterest(dirs: seq<Directive>): seq<Directive> {
    var c := Collect(dirs);
    if c.order == [] then dirs
    else
      var out := WithIncome(dirs);
      RunPass(c.byAcct, Pass({}, ZeroKeys(out), []), out).out
  }

  // ----- expanding an expanded stream

  ghost predicate Named(ai: map<string, AutoAccount>) {
    forall x | x in ai :: ai[x].account == x
  }

  lemma {:induction false} CollectNamed(dirs: seq<Directive>)
    ensures Named(Collect(dirs).byAcct)
  {
    if dirs != [] { CollectNamed(dirs[..|dirs| - 1]); }
  }

  lemma {:induction false} CollectFiltered(dirs: seq<Directive>)
    ensures Collect(dirs) == Collect(Filter(dirs, Relevant))
  {
    if dirs != [] {
      var dirs', d := dirs[..|dirs| - 1], dirs[|dirs| - 1];
      CollectFiltered(dirs');
      var f := Filter(dirs', Relevant);
      if Relevant(d) {
        assert (f + [d])[..|f|] == f;
      } else {
        assert f + [] == f;
      }
    }
  }

  lemma FilterSnoc(s: seq<Directive>, d: Directive)
    ensures Filter(s + [d], Relevant) == Filter(s, Relevant) + (if Relevant(d) then [d] else [])
  {
    assert (s + [d])[..|s|] == s;
  }

  /** The pass writes the directives it reads, in order, and between them only irrelevant ones. */
  lemma PadBeforeFilter(p: Pass, a: AutoAccount, meta: Meta)
    ensures Filter(PadBefore(p, a, meta).out, Relevant) == Filter(p.out, Relevant)
  {
    FilterSnoc(p.out, AutoPad(a, meta));
  }

  lemma {:induction false} CloseFilter(p: Pass, a: AutoAccount, meta: Meta, ccys: seq<string>)
    ensures Filter(CloseCurrencies(p, a, meta, ccys).out, Relevant) == Filter(p.out, Relevant)
  {
    if ccys != [] {
      CloseFilter(p, a, meta, ccys[..|ccys| - 1]);
      var q, ccy := CloseCurrencies(p, a, meta, ccys[..|ccys| - 1]), ccys[|ccys| - 1];
      PadBeforeFilter(q, a, meta);
      FilterSnoc(PadBefore(q, a, meta).out, ZeroBalance(a.account, meta, ccy));
    }
  }

  lemma StepFilter(ai: map<string, AutoAccount>, p: Pass, d: Directive)
    ensures Filter(PassStep(ai, p, d).out, Relevant) == Filter(p.out, Relevant) + (if Relevant(d) then [d] else [])
  {
    FilterSnoc(p.out, d);
    match d
    case Balance(meta, account, _) =>
      if account in ai {
        PadBeforeFilter(p, ai[account], meta);
        FilterSnoc(PadBefore(p, ai[account], meta).out, d);
      }
    case Close(meta, account) =>
      if account in ai {
        CloseFilter(p, ai[account], meta, ai[account].currencies);
        FilterSnoc(CloseCurrencies(p, ai[account], meta, ai[account].currencies).out, d);
      }
    case _ =>
  }

  lemma {:induction false} PassFilter(ai: map<string, AutoAccount>, zero: set<string>, dirs: seq<Directive>)
    ensures Filter(RunPass(ai, Pass({}, zero, []), dirs).out, Relevant) == Filter(dirs, Relevant)
  {
    hide PassStep, Relevant;
    if dirs != [] {
      var dirs', d := dirs[..|dirs| - 1], dirs[|dirs| - 1];
      PassFilter(ai, zero, dirs');
      StepFilter(ai, RunPass(ai, Pass({}, zero, []), dirs'), d);
    }
  }

  lemma {:induction false} IrrelevantOpens(c: Collected, order: seq<string>, known: set<string>)
    requires forall i | 0 <= i < |order| :: order[i] in c.byAcct
    ensures Filter(OpenIncome(c, order, known).opens, Relevant) == []
  {
    if order != [] {
      IrrelevantOpens(c, order[..|order| - 1], known);
      var r, a := OpenIncome(c, order[..|order| - 1], known), c.byAcct[order[|order| - 1]];
      FilterSnoc(r.opens, Open(a.openMeta, a.income, a.currencies, None));
    }
  }

  lemma {:induction false} IncomeKnown(c: Collected, order: seq<string>, known: set<string>)
    requires forall i | 0 <= i < |order| :: order[i] in c.byAcct
    ensures OpenIncome(c, order, known).known == known + OpenedIn(OpenIncome(c, order, known).opens)
    ensures forall i | 0 <= i < |order| :: c.byAcct[order[i]].income in OpenIncome(c, order, known).known
  {
    hide OpenedIn;
    if order != [] {
      IncomeKnown(c, order[..|order| - 1], known);
      var r, a := OpenIncome(c, order[..|order| - 1], known), c.byAcct[order[|order| - 1]];
      OpenedSnoc(r.opens, Open(a.openMeta, a.income, a.currencies, None));
    } else {
      NoneOpened();
    }
  }

  lemma NoneOpened()
    ensures OpenedIn([]) == {}
  {
  }

  lemma OpenedSnoc(dirs: seq<Directive>, d: Directive)
    ensures OpenedIn(dirs + [d]) == OpenedIn(dirs) + (if d.Open? then {d.account} else {})
  {
    forall a ensures a in OpenedIn(dirs + [d]) <==> a in OpenedIn(dirs) || (d.Open? && a == d.account) {
      if x :| x in dirs && x.Open? && x.account == a { assert x in dirs + [d]; }
      if d.Open? && a == d.account { assert d in dirs + [d]; }
    }
  }

  lemma {:induction false} NothingToOpen(c: Collected, order: seq<string>, known: set<string>)
    requires forall i | 0 <= i < |order| :: order[i] in c.byAcct && c.byAcct[order[i]].income in known
    ensures OpenIncome(c, order, known) == IncomeOpens([], known)
  {
    if order != [] { NothingToOpen(c, order[..|order| - 1], known); }
  }

  lemma {:induction false} FilterConcat(p: seq<Directive>, q: seq<Directive>)
    ensures Filter(p + q, Relevant) == Filter(p, Relevant) + Filter(q, Relevant)
  {
    if q == [] {
      assert p + q == p;
    } else {
      assert (p + q)[..|p + q| - 1] == p + q[..|q| - 1];
      FilterConcat(p, q[..|q| - 1]);
    }
  }

  /** The pass keeps what it reads. */
  lemma {:induction false} PassKeeps(ai: map<string, AutoAccount>, zero: set<string>, dirs: seq<Directive>)
    ensures Within(dirs, RunPass(ai, Pass({}, zero, []), dirs).out)
  {
    if dirs != [] {
      var p, d := RunPass(ai, Pass({}, zero, []), dirs[..|dirs| - 1]), dirs[|dirs| - 1];
      PassKeeps(ai, zero, dirs[..|dirs| - 1]);
      StepGrows(ai, p, d);
      assert dirs == dirs[..|dirs| - 1] + [d];
    }
  }

  lemma {:induction false} CloseGrows(p: Pass, a: AutoAccount, meta: Meta, ccys: seq<string>)
    ensures p.out <= CloseCurrencies(p, a, meta, ccys).out && p.zero <= CloseCurrencies(p, a, meta, ccys).zero
    ensures forall i | 0 <= i < |ccys| :: ZeroKey(a.account, ccys[i]) in CloseCurrencies(p, a, meta, ccys).zero
  {
    if ccys != [] { CloseGrows(p, a, meta, ccys[..|ccys| - 1]); }
  }

  lemma StepGrows(ai: map<string, AutoAccount>, p: Pass, d: Directive)
    ensures p.out <= PassStep(ai, p, d).out && p.zero <= PassStep(ai, p, d).zero && d in PassStep(ai, p, d).out
  {
    match d
    case Close(meta, account) => if account in ai { CloseGrows(p, ai[account], meta, ai[account].currencies); }
    case _ =>
  }

  /** A second pass over what p has written writes it again and ends with the same pending pads. */
  ghost predicate Replays(ai: map<string, AutoAccount>, p: Pass, zero: set<string>) {
    var q := RunPass(ai, Pass({}, zero, []), p.out);
    q.out == p.out && q.pending == p.pending && zero <= q.zero
  }

  lemma PassSnoc(ai: map<string, AutoAccount>, p: Pass, dirs: seq<Directive>, d: Directive)
    ensures RunPass(ai, p, dirs + [d]) == PassStep(ai, RunPass(ai, p, dirs), d)
  {
    assert (dirs + [d])[..|dirs|] == dirs;
  }

  /** A balance on an interest account, padded when no pad is pending, replays. */
  lemma BalanceReplays(ai: map<string, AutoAccount>, p: Pass, b: Directive, zero: set<string>)
    requires Named(ai) && Replays(ai, p, zero) && b.Balance? && b.account in ai
    ensures Replays(ai, Emit(PadBefore(p, ai[b.account], b.meta), b).(pending := p.pending - {b.account}), zero)
  {
    hide RunPass, ZeroKey, CloseCurrencies;
    var a := ai[b.account];
    var q := RunPass(ai, Pass({}, zero, []), p.out);
    var pad := AutoPad(a, b.meta);
    if a.account in p.pending {
      PassSnoc(ai, Pass({}, zero, []), p.out, b);
    } else {
      PassSnoc(ai, Pass({}, zero, []), p.out, pad);
      PassSnoc(ai, Pass({}, zero, []), p.out + [pad], b);
      assert q.pending + {a.account} - {a.account} == p.pending;
      assert p.pending - {a.account} == p.pending;
    }
  }

  lemma {:induction false} CloseReplays(ai: map<string, AutoAccount>, p: Pass, a: AutoAccount, meta: Meta,
        ccys: seq<string>, zero: set<string>)
    requires Named(ai) && Replays(ai, p, zero) && a.account in ai && ai[a.account] == a
    ensures Replays(ai, CloseCurrencies(p, a, meta, ccys), zero)
  {
    if ccys != [] {
      CloseReplays(ai, p, a, meta, ccys[..|ccys| - 1], zero);
      var q, ccy := CloseCurrencies(p, a, meta, ccys[..|ccys| - 1]), ccys[|ccys| - 1];
      if ZeroKey(a.account, ccy) !in q.zero {
        BalanceReplays(ai, q, ZeroBalance(a.account, meta, ccy), zero);
      }
    }
  }

  lemma {:induction false} AllZeroed(p: Pass, a: AutoAccount, meta: Meta, ccys: seq<string>)
    requires forall i | 0 <= i < |ccys| :: ZeroKey(a.account, ccys[i]) in p.zero
    ensures CloseCurrencies(p, a, meta, ccys) == p
  {
    if ccys != [] { AllZeroed(p, a, meta, ccys[..|ccys| - 1]); }
  }

  lemma StepReplays(ai: map<string, AutoAccount>, p: Pass, d: Directive, zero: set<string>)
    requires Named(ai) && Replays(ai, p, zero) && PassStep(ai, p, d).zero <= zero
    ensures Replays(ai, PassStep(ai, p, d), zero)
  {
    match d
    case Balance(_, account, _) =>
      if account in ai { BalanceReplays(ai, p, d, zero); } else { PassSnoc(ai, Pass({}, zero, []), p.out, d); }
    case Close(meta, account) =>
      if account in ai {
        var a := ai[account];
        var q := CloseCurrencies(p, a, meta, a.currencies);
        CloseReplays(ai, p, a, meta, a.currencies, zero);
        CloseGrows(p, a, meta, a.currencies);
        AllZeroed(RunPass(ai, Pass({}, zero, []), q.out), a, meta, a.currencies);
        PassSnoc(ai, Pass({}, zero, []), q.out, d);
      } else {
        PassSnoc(ai, Pass({}, zero, []), p.out, d);
      }
    case _ => PassSnoc(ai, Pass({}, zero, []), p.out, d);
  }

  lemma {:induction false} PassReplays(ai: map<string, AutoAccount>, zero0: set<string>, dirs: seq<Directive>,
        zero: set<string>)
    requires Named(ai) && RunPass(ai, Pass({}, zero0, []), dirs).zero <= zero
    ensures Replays(ai, RunPass(ai, Pass({}, zero0, []), dirs), zero)
  {
    if dirs != [] {
      var p, d := RunPass(ai, Pass({}, zero0, []), dirs[..|dirs| - 1]), dirs[|dirs| - 1];
      StepGrows(ai, p, d);
      PassReplays(ai, zero0, dirs[..|dirs| - 1], zero);
      StepReplays(ai, p, d, zero);
    }
  }

  /** Every zero balance the pass knows of stands in the stream it started from or has written. */
  ghost predicate ZeroWritten(p: Pass, zero0: set<string>) {
    p.zero <= zero0 + ZeroKeys(p.out)
  }

  lemma ZeroKeysGrow(p: seq<Directive>, q: seq<Directive>)
    requires p <= q
    ensures ZeroKeys(p) <= ZeroKeys(q)
  {
    forall k | k in ZeroKeys(p) ensures k in ZeroKeys(q) {
      var d :| d in p && IsZero(d) && ZeroKey(d.account, d.amount.commodity) == k;
      assert d in q;
    }
  }

  lemma ZeroKeyOf(dirs: seq<Directive>, d: Directive)
    requires d in dirs && IsZero(d)
    ensures ZeroKey(d.account, d.amount.commodity) in ZeroKeys(dirs)
  {
  }

  lemma {:induction false} CloseWritten(p: Pass, a: AutoAccount, meta: Meta, ccys: seq<string>, zero0: set<string>)
    requires ZeroWritten(p, zero0)
    ensures ZeroWritten(CloseCurrencies(p, a, meta, ccys), zero0)
  {
    if ccys != [] {
      CloseWritten(p, a, meta, ccys[..|ccys| - 1], zero0);
      var q, ccy := CloseCurrencies(p, a, meta, ccys[..|ccys| - 1]), ccys[|ccys| - 1];
      var b := ZeroBalance(a.account, meta, ccy);
      var r := Emit(PadBefore(q, a, meta), b);
      ZeroKeysGrow(q.out, r.out);
      ZeroKeyOf(r.out, b);
    }
  }

  lemma StepWritten(ai: map<string, AutoAccount>, p: Pass, d: Directive, zero0: set<string>)
    requires Named(ai) && ZeroWritten(p, zero0)
    ensures ZeroWritten(PassStep(ai, p, d), zero0)
  {
    StepGrows(ai, p, d);
    ZeroKeysGrow(p.out, PassStep(ai, p, d).out);
    match d
    case Balance(_, account, amount) =>
      if account in ai && amount.number == 0.0 { ZeroKeyOf(PassStep(ai, p, d).out, d); }
    case Close(meta, account) =>
      if account in ai {
        var q := CloseCurrencies(p, ai[account], meta, ai[account].currencies);
        CloseWritten(p, ai[account], meta, ai[account].currencies, zero0);
        ZeroKeysGrow(q.out, q.out + [d]);
      }
    case _ =>
  }

  lemma {:induction false} PassWritten(ai: map<string, AutoAccount>, zero0: set<string>, dirs: seq<Directive>)
    requires Named(ai)
    ensures ZeroWritten(RunPass(ai, Pass({}, zero0, []), dirs), zero0)
  {
    if dirs != [] {
      PassWritten(ai, zero0, dirs[..|dirs| - 1]);
      StepWritten(ai, RunPass(ai, Pass({}, zero0, []), dirs[..|dirs| - 1]), dirs[|dirs| - 1], zero0);
    }
  }

  lemma SameAccounts(dirs: seq<Directive>)
    requires Collect(dirs).order != []
    ensures Collect(ExpandAutoInterest(dirs)) == Collect(dirs)
  {
    var c, out := Collect(dirs), WithIncome(dirs);
    OrderKnown(dirs);
    var opens := OpenIncome(c, c.order, OpenedIn(dirs)).opens;
    IrrelevantOpens(c, c.order, OpenedIn(dirs));
    PassFilter(c.byAcct, ZeroKeys(out), out);
    FilterConcat(opens, dirs);
    assert [] + Filter(dirs, Relevant) == Filter(dirs, Relevant);
    CollectFiltered(dirs);
    CollectFiltered(ExpandAutoInterest(dirs));
  }

  lemma OpenedGrows(p: seq<Directive>, q: seq<Directive>)
    requires Within(p, q)
    ensures OpenedIn(p) <= OpenedIn(q)
  {
    forall a | a in OpenedIn(p) ensures a in OpenedIn(q) {
      var d :| d in p && d.Open? && d.account == a;
      assert d in q;
    }
  }

  lemma IncomeIsOpen(dirs: seq<Directive>)
    requires Collect(dirs).order != []
    ensures WithIncome(ExpandAutoInterest(dirs)) == ExpandAutoInterest(dirs)
  {
    var c, out, final := Collect(dirs), WithIncome(dirs), ExpandAutoInterest(dirs);
    SameAccounts(dirs);
    OrderKnown(dirs);
    var opens := OpenIncome(c, c.order, OpenedIn(dirs)).opens;
    IncomeKnown(c, c.order, OpenedIn(dirs));
    PassKeeps(c.byAcct, ZeroKeys(out), out);
    OpenedGrows(opens, final) by { assert forall d | d in opens :: d in out; }
    OpenedGrows(dirs, final) by { assert forall d | d in dirs :: d in out; }
    NothingToOpen(c, c.order, OpenedIn(final));
    assert [] + final == final;
  }

  /** Every directive of the stream is kept. */
  lemma ExpandKeeps(dirs: seq<Directive>)
    ensures Within(dirs, ExpandAutoInterest(dirs))
  {
    if Collect(dirs).order != [] {
      var out := WithIncome(dirs);
      PassKeeps(Collect(dirs).byAcct, ZeroKeys(out), out);
      forall d | d in dirs ensures d in ExpandAutoInterest(dirs) { assert d in out; }
    }
  }

  /**
    Expansion is idempotent: whatever pads, balances, closes and currencies the stream mixes,
    expanding its expansion adds nothing.
  */
  lemma ExpandAutoInterestIdempotent(dirs: seq<Directive>)
    ensures ExpandAutoInterest(ExpandAutoInterest(dirs)) == ExpandAutoInterest(dirs)
  {
    var c := Collect(dirs);
    if c.order != [] {
      var out, final := WithIncome(dirs), ExpandAutoInterest(dirs);
      SameAccounts(dirs);
      IncomeIsOpen(dirs);
      CollectNamed(dirs);
      var p := RunPass(c.byAcct, Pass({}, ZeroKeys(out), []), out);
      PassWritten(c.byAcct, ZeroKeys(out), out);
      PassKeeps(c.byAcct, ZeroKeys(out), out);
      forall k | k in ZeroKeys(out) ensures k in ZeroKeys(final) {
        var d :| d in out && IsZero(d) && ZeroKey(d.account, d.amount.commodity) == k;
        assert d in final;
      }
      PassReplays(c.byAcct, ZeroKeys(out), out, ZeroKeys(final));
    }
  }

  // ----- the program's loops

  method CollectAutoInterest(dirs: seq<Directive>) returns (order: seq<string>, byAcct: map<string, AutoAccount>)
    ensures Collected(order, byAcct) == Collect(dirs)
  {
    order, byAcct := [], map[];
    for i := 0 to |dirs|
      invariant Collected(order, byAcct) == Collect(dirs[..i])
    {
      assert dirs[..i + 1][..i] == dirs[..i];
      match dirs[i] {
        case Open(meta, account, currencies, interest) =>
          if interest.Some? {
            if account !in byAcct { order := order + [account]; }
            byAcct := byAcct[account := AutoAccount(account, meta, None, currencies, interest.value,
                IncomeAccount(account))];
          }
        case Close(meta, account) =>
          if account in byAcct { byAcct := byAcct[account := byAcct[account].(closeDate := Some(meta.date))]; }
        case _ =>
      }
    }
    assert dirs[..|dirs|] == dirs;
  }

  method SynthOpens(order: seq<string>, byAcct: map<string, AutoAccount>,
        known: set<string>) returns (opens: seq<Directive>)
    requires forall i | 0 <= i < |order| :: order[i] in byAcct
    ensures opens == OpenIncome(Collected(order, byAcct), order, known).opens
  {
    var seen := known;
    opens := [];
    for i := 0 to |order|
      invariant IncomeOpens(opens, seen) == OpenIncome(Collected(order, byAcct), order[..i], known)
    {
      assert order[..i + 1][..i] == order[..i];
      var a := byAcct[order[i]];
      if a.income !in seen {
        seen := seen + {a.income};
        opens := opens + [Open(a.openMeta, a.income, a.currencies, None)];
      }
    }
    assert order[..|order|] == order;
  }

  method PadCurrencies(p: Pass, a: AutoAccount, meta: Meta, ccys: seq<string>) returns (r: Pass)
    ensures r == CloseCurrencies(p, a, meta, ccys)
  {
    var pending, zero, out := p.pending, p.zero, p.out;
    for i := 0 to |ccys|
      invariant Pass(pending, zero, out) == CloseCurrencies(p, a, meta, ccys[..i])
    {
      assert ccys[..i + 1][..i] == ccys[..i];
      var key := ZeroKey(a.account, ccys[i]);
      if key !in zero {
        if a.account !in pending { out := out + [AutoPad(a, meta)]; }
        out := out + [Balance(meta, a.account, Amount(0.0, ccys[i]))];
        pending := pending - {a.account};
        zero := zero + {key};
      }
    }
    assert ccys[..|ccys|] == ccys;
    r := Pass(pending, zero, out);
  }

  method PadOne(ai: map<string, AutoAccount>, p: Pass, d: Directive) returns (r: Pass)
    ensures r == PassStep(ai, p, d)
  {
    hide CloseCurrencies;
    var pending, zero, out := p.pending, p.zero, p.out;
    match d {
      case Pad(_, account, _) => pending := pending + {account};
      case Balance(meta, account, amount) =>
        if account in ai {
          if ai[account].account !in pending { out := out + [AutoPad(ai[account], meta)]; }
          pending := pending - {account};
          if amount.number == 0.0 { zero := zero + {ZeroKey(account, amount.commodity)}; }
        }
      case Close(meta, account) =>
        if account in ai {
          var q := PadCurrencies(p, ai[account], meta, ai[account].currencies);
          pending, zero, out := q.pending, q.zero, q.out;
        }
      case _ =>
    }
    r := Pass(pending, zero, out + [d]);
  }

  method Expand(dirs: seq<Directive>) returns (final: seq<Directive>)
    ensures final == ExpandAutoInterest(dirs)
  {
    hide PassStep, OpenIncome, Collect;
    var order, byAcct := CollectAutoInterest(dirs);
    if order == [] { return dirs; }
    OrderKnown(dirs);
    var known := set d | d in dirs && d.Open? :: d.account;
    var opens := SynthOpens(order, byAcct, known);
    var out := opens + dirs;
    var p := Pass({}, ZeroKeys(out), []);
    for i := 0 to |out|
      invariant p == RunPass(byAcct, Pass({}, ZeroKeys(out), []), out[..i])
    {
      assert out[..i + 1][..i] == out[..i];
      p := PadOne(byAcct, p, out[i]);
    }
    assert out[..|out|] == out;
    final := p.out;
  }
}
