/** What the expansion of interest accounts adds to a stream, directive by directive. */
module InterestPads {
  import opened Ast
  import opened Names
  import opened Sorting
  import opened AutoInterest

  /** The last open of the account that carries an interest rate. */
  ghost predicate InterestOpen(dirs: seq<Directive>, k: int, a: string) {
    && 0 <= k < |dirs| && dirs[k].Open? && dirs[k].account == a && dirs[k].interest.Some?
    && forall j | k < j < |dirs| && dirs[j].Open? && dirs[j].account == a :: dirs[j].interest.None?
  }

  ghost predicate InterestAccount(dirs: seq<Directive>, a: string) {
    exists k :: InterestOpen(dirs, k, a)
  }

  /** The income account that an interest account is padded from. */
  predicate Counterpart(a: string, income: string) {
    if "Assets" <= a then income == "Income:Passivo" + a[6..] else income == "Income:Passivo:" + a
  }

  /** Dated the day before the balance, but not before the open. */
  predicate DayBefore(pad: Date, balance: Date, open: Date) {
    if balance <= open then pad == open else pad + 1 == balance
  }

  /** The pad at place i stands right before a balance on its interest account and pads it from its
      counterpart. */
  ghost predicate PadsInterest(dirs: seq<Directive>, out: seq<Directive>, i: int)
    requires 0 <= i < |out| && out[i].Pad?
  {
    && i + 1 < |out| && out[i + 1].Balance? && out[i + 1].account == out[i].account
    && Counterpart(out[i].account, out[i].fromAccount)
    && exists k :: InterestOpen(dirs, k, out[i].account)
         && DayBefore(out[i].meta.date, out[i + 1].meta.date, dirs[k].meta.date)
  }

  /** A pad on the account of the balance at place i, with no balance on it in between. */
  ghost predicate PaddedAt(out: seq<Directive>, i: int)
    requires 0 <= i < |out| && out[i].Balance?
  {
    exists j | 0 <= j < i :: PadSince(out, j, i, out[i].account)
  }

  predicate PadSince(out: seq<Directive>, j: int, i: int, a: string)
    requires 0 <= j < i <= |out|
  {
    && out[j].Pad? && out[j].account == a
    && forall k | j < k < i :: !(out[k].Balance? && out[k].account == a)
  }

  /** A zero balance for a close of an interest account, in a currency of its open. */
  ghost predicate ZeroesInterest(dirs: seq<Directive>, b: Directive)
    requires b.Balance?
  {
    && b.amount.number == 0.0
    && (exists d | d in dirs :: d.Close? && d.account == b.account && d.meta == b.meta)
    && exists k :: InterestOpen(dirs, k, b.account) && b.amount.commodity in dirs[k].currencies
  }

  /** The open of a counterpart that has none, at the place and with the currencies of the interest account. */
  ghost predicate OpensIncome(dirs: seq<Directive>, o: Directive)
    requires o.Open?
  {
    && o.interest.None? && (forall d | d in dirs && d.Open? :: d.account != o.account)
    && exists a, k :: InterestOpen(dirs, k, a) && Counterpart(a, o.account)
         && o.meta == dirs[k].meta && o.currencies == dirs[k].currencies
  }

  // ----- the collected accounts are those with an interest-bearing open

  /** The date is that of the last close of the account after its open at place k, if there is one. */
  ghost predicate ClosedSince(dirs: seq<Directive>, k: int, date: Option<Date>)
    requires 0 <= k < |dirs| && dirs[k].Open?
  {
    if date.None? then forall i | k < i < |dirs| :: !Closes(dirs[i], dirs[k].account)
    else
      exists i | k < i < |dirs| :: Closes(dirs[i], dirs[k].account) && dirs[i].meta.date == date.value
        && forall j | i < j < |dirs| :: !Closes(dirs[j], dirs[k].account)
  }

  predicate Closes(d: Directive, a: string) {
    d.Close? && d.account == a
  }

  ghost predicate CollectedFrom(dirs: seq<Directive>, ai: map<string, AutoAccount>) {
    && (forall a :: a in ai <==> InterestAccount(dirs, a))
    && (forall a, k | a in ai && InterestOpen(dirs, k, a) ::
          && ai[a].account == a && ai[a].openMeta == dirs[k].meta && ai[a].currencies == dirs[k].currencies
          && Some(ai[a].rate) == dirs[k].interest && Counterpart(a, ai[a].income)
          && ClosedSince(dirs, k, ai[a].closeDate))
  }

  lemma OpenSnoc(dirs: seq<Directive>, k: int, a: string)
    requires dirs != []
    ensures var n, d := |dirs| - 1, dirs[|dirs| - 1];
            InterestOpen(dirs, k, a) <==>
            if d.Open? && d.account == a && d.interest.Some? then k == n else k != n && InterestOpen(dirs[..n], k, a)
  {
    var n := |dirs| - 1;
    if InterestOpen(dirs, k, a) && k != n {
      forall j | k < j < n && dirs[..n][j].Open? && dirs[..n][j].account == a ensures dirs[..n][j].interest.None? {
        assert dirs[..n][j] == dirs[j];
      }
    }
    if k != n && InterestOpen(dirs[..n], k, a) {
      forall j | k < j < n && dirs[j].Open? && dirs[j].account == a ensures dirs[j].interest.None? {
        assert dirs[..n][j] == dirs[j];
      }
    }
  }

  predicate Opens(d: Directive, a: string) {
    d.Open? && d.account == a && d.interest.Some?
  }

  lemma AccountSnoc(dirs: seq<Directive>, a: string)
    requires dirs != []
    ensures InterestAccount(dirs, a) <==> InterestAccount(dirs[..|dirs| - 1], a) || Opens(dirs[|dirs| - 1], a)
  {
    hide InterestOpen;
    var n, d := |dirs| - 1, dirs[|dirs| - 1];
    forall k ensures InterestOpen(dirs, k, a) <==>
                     if Opens(d, a) then k == n else k != n && InterestOpen(dirs[..n], k, a) {
      OpenSnoc(dirs, k, a);
    }
    if Opens(d, a) {
      assert InterestOpen(dirs, n, a);
    } else if k :| InterestOpen(dirs[..n], k, a) {
      OpenPlace(dirs[..n], k, a);
      assert InterestOpen(dirs, k, a);
    }
  }

  lemma OpenPlace(dirs: seq<Directive>, k: int, a: string)
    requires InterestOpen(dirs, k, a)
    ensures 0 <= k < |dirs|
  {
  }

  lemma {:induction false} CollectIsFrom(dirs: seq<Directive>)
    ensures CollectedFrom(dirs, Collect(dirs).byAcct)
  {
    hide InterestOpen, InterestAccount, CollectedFrom;
    if dirs == [] {
      NothingCollected();
    } else {
      var before := dirs[..|dirs| - 1];
      CollectIsFrom(before);
      forall a ensures InterestAccount(dirs, a) <==> InterestAccount(before, a) || Opens(dirs[|dirs| - 1], a) {
        AccountSnoc(dirs, a);
      }
      StepCollects(dirs, Collect(before));
    }
  }

  lemma NothingCollected()
    ensures CollectedFrom([], map[])
  {
  }

  lemma ClosedMore(dirs: seq<Directive>, k: int, date: Option<Date>)
    requires 0 <= k < |dirs| - 1 && dirs[k].Open? && ClosedSince(dirs[..|dirs| - 1], k, date)
    ensures var d := dirs[|dirs| - 1];
            ClosedSince(dirs, k, if Closes(d, dirs[k].account) then Some(d.meta.date) else date)
  {
    hide Closes;
    var n := |dirs| - 1;
    var before, d := dirs[..n], dirs[n];
    if !Closes(d, dirs[k].account) {
      if date.Some? {
        var i :| k < i < n && Closes(before[i], before[k].account) && before[i].meta.date == date.value
          && forall j | i < j < n :: !Closes(before[j], before[k].account);
        forall j | i < j < |dirs| ensures !Closes(dirs[j], dirs[k].account) { assert j < n ==> before[j] == dirs[j]; }
        assert Closes(dirs[i], dirs[k].account);
      } else {
        forall j | k < j < |dirs| ensures !Closes(dirs[j], dirs[k].account) { assert j < n ==> before[j] == dirs[j]; }
      }
    }
  }

  lemma StepCollects(dirs: seq<Directive>, c: Collected)
    requires dirs != [] && CollectedFrom(dirs[..|dirs| - 1], c.byAcct)
    requires forall a :: InterestAccount(dirs, a) <==>
                         InterestAccount(dirs[..|dirs| - 1], a) || Opens(dirs[|dirs| - 1], a)
    ensures CollectedFrom(dirs, CollectStep(c, dirs[|dirs| - 1]).byAcct)
  {
    hide InterestAccount;
    var n, d := |dirs| - 1, dirs[|dirs| - 1];
    var ai := CollectStep(c, d).byAcct;
    forall a, k | a in ai && InterestOpen(dirs, k, a)
      ensures ai[a].account == a && ai[a].openMeta == dirs[k].meta && ai[a].currencies == dirs[k].currencies
              && Some(ai[a].rate) == dirs[k].interest && Counterpart(a, ai[a].income)
              && ClosedSince(dirs, k, ai[a].closeDate)
    {
      OpenSnoc(dirs, k, a);
      OpenPlace(dirs, k, a);
      if !Opens(d, a) {
        assert dirs[..n][k] == dirs[k];
        ClosedMore(dirs, k, c.byAcct[a].closeDate);
      }
    }
  }

  // ----- what the pass has written so far

  /** Every directive written is read from the stream or added as described. */
  ghost predicate Accounted(dirs: seq<Directive>, src: seq<Directive>, out: seq<Directive>) {
    forall i | 0 <= i < |out| && out[i] !in src ::
      if out[i].Pad? then PadsInterest(dirs, out, i)
      else out[i].Balance? && ZeroesInterest(dirs, out[i])
  }

  ghost predicate AllPadded(ai: map<string, AutoAccount>, out: seq<Directive>) {
    forall i | 0 <= i < |out| && out[i].Balance? && out[i].account in ai :: PaddedAt(out, i)
  }

  /** A pending account has a pad with no balance on it since. */
  ghost predicate PendingPadded(ai: map<string, AutoAccount>, p: Pass) {
    forall a | a in p.pending && a in ai :: exists j | 0 <= j < |p.out| :: PadSince(p.out, j, |p.out|, a)
  }

  /** The currencies of a closed interest account have zero balances. */
  ghost predicate ClosedZero(ai: map<string, AutoAccount>, p: Pass) {
    forall d | d in p.out && d.Close? && d.account in ai ::
      forall c | c in ai[d.account].currencies :: ZeroKey(d.account, c) in p.zero
  }

  ghost predicate Kept(dirs: seq<Directive>, src: seq<Directive>, ai: map<string, AutoAccount>, p: Pass) {
    Accounted(dirs, src, p.out) && AllPadded(ai, p.out) && PendingPadded(ai, p) && ClosedZero(ai, p)
  }

  /** Writing a directive of the stream that is no balance on an interest account. */
  lemma EmitKeeps(dirs: seq<Directive>, src: seq<Directive>, ai: map<string, AutoAccount>, p: Pass, d: Directive)
    requires Kept(dirs, src, ai, p) && d in src && !(d.Balance? && d.account in ai)
    requires d.Close? && d.account in ai ==> forall c | c in ai[d.account].currencies :: ZeroKey(d.account, c) in p.zero
    ensures Kept(dirs, src, ai, Emit(p, d))
    ensures d.Pad? ==> Kept(dirs, src, ai, Emit(p.(pending := p.pending + {d.account}), d))
  {
    hide PadsInterest, ZeroesInterest;
    AppendAccounted(dirs, src, p.out, [d]);
    AppendPadded(ai, p.out, [d]);
    StillPending(ai, p, {}, [d]);
    if d.Pad? { assert PadSince(p.out + [d], |p.out|, |p.out| + 1, d.account); }
  }

  /** What is written on other accounts leaves a pending pad where it is. */
  lemma StillPending(ai: map<string, AutoAccount>, p: Pass, done: set<string>, more: seq<Directive>)
    requires PendingPadded(ai, p)
    requires forall i | 0 <= i < |more| && more[i].Balance? && more[i].account in ai :: more[i].account in done
    ensures PendingPadded(ai, p.(pending := p.pending - done, out := p.out + more))
  {
    var out := p.out + more;
    var n := |out|;
    forall a | a in p.pending - done && a in ai ensures exists j | 0 <= j < n :: PadSince(out, j, n, a) {
      var j :| 0 <= j < |p.out| && PadSince(p.out, j, |p.out|, a);
      assert PadSince(out, j, n, a);
    }
  }

  /** Appending directives that are accounted for, none of them a pad added last. */
  lemma AppendAccounted(dirs: seq<Directive>, src: seq<Directive>, out: seq<Directive>, more: seq<Directive>)
    requires Accounted(dirs, src, out)
    requires forall i | 0 <= i < |more| && more[i] !in src ::
               if more[i].Pad? then PadsInterest(dirs, out + more, |out| + i)
               else more[i].Balance? && ZeroesInterest(dirs, more[i])
    ensures Accounted(dirs, src, out + more)
  {
    hide ZeroesInterest;
    var all := out + more;
    forall i | 0 <= i < |all| && all[i] !in src
      ensures if all[i].Pad? then PadsInterest(dirs, all, i) else all[i].Balance? && ZeroesInterest(dirs, all[i])
    {
      if i < |out| {
        assert all[i] == out[i];
        if out[i].Pad? { assert PadsInterest(dirs, out, i) && all[i + 1] == out[i + 1]; }
      } else {
        assert all[i] == more[i - |out|];
      }
    }
  }

  lemma AppendPadded(ai: map<string, AutoAccount>, out: seq<Directive>, more: seq<Directive>)
    requires AllPadded(ai, out)
    requires forall i | 0 <= i < |more| && more[i].Balance? && more[i].account in ai :: PaddedAt(out + more, |out| + i)
    ensures AllPadded(ai, out + more)
  {
    var all := out + more;
    forall i | 0 <= i < |all| && all[i].Balance? && all[i].account in ai ensures PaddedAt(all, i) {
      if i < |out| {
        assert all[i] == out[i] && PaddedAt(out, i);
        var j :| 0 <= j < i && PadSince(out, j, i, out[i].account);
        assert PadSince(all, j, i, all[i].account);
      } else {
        assert all[i] == more[i - |out|];
      }
    }
  }

  /** A balance on an interest account, padded when no pad is pending. */
  lemma BalanceKeeps(dirs: seq<Directive>, src: seq<Directive>, ai: map<string, AutoAccount>, p: Pass, b: Directive)
    requires Kept(dirs, src, ai, p) && b.Balance? && b.account in ai && CollectedFrom(dirs, ai)
    requires b in src || ZeroesInterest(dirs, b)
    ensures Kept(dirs, src, ai, Emit(PadBefore(p, ai[b.account], b.meta), b).(pending := p.pending - {b.account}))
  {
    hide Kept, ZeroesInterest, Counterpart, InterestOpen, DayBefore;
    var a := b.account;
    var more := if a in p.pending then [b] else [AutoPad(ai[a], b.meta), b];
    AccountName(dirs, ai, a);
    assert Emit(PadBefore(p, ai[a], b.meta), b).out == p.out + more;
    BalanceAccounted(dirs, src, ai, p, b, more);
    BalancePadded(dirs, src, ai, p, b, more);
    BalancePending(dirs, src, ai, p, more, a);
    BalanceClosed(dirs, src, ai, p, more);
    KeptIs(dirs, src, ai, p.(pending := p.pending - {a}, out := p.out + more));
  }

  lemma KeptIs(dirs: seq<Directive>, src: seq<Directive>, ai: map<string, AutoAccount>, p: Pass)
    ensures Kept(dirs, src, ai, p) <==>
            Accounted(dirs, src, p.out) && AllPadded(ai, p.out) && PendingPadded(ai, p) && ClosedZero(ai, p)
  {
  }

  lemma BalanceAccounted(dirs: seq<Directive>, src: seq<Directive>, ai: map<string, AutoAccount>, p: Pass, b: Directive,
                         more: seq<Directive>)
    requires Kept(dirs, src, ai, p) && b.Balance? && b.account in ai && CollectedFrom(dirs, ai)
    requires b in src || ZeroesInterest(dirs, b)
    requires more == [b] || more == [AutoPad(ai[b.account], b.meta), b]
    ensures Accounted(dirs, src, p.out + more)
  {
    hide ZeroesInterest, Counterpart, AllPadded, PendingPadded, ClosedZero;
    var k :| InterestOpen(dirs, k, b.account);
    var out := p.out + more;
    if |more| == 2 {
      assert out[|p.out|] == more[0] && out[|p.out| + 1] == b;
      assert PadsInterest(dirs, out, |p.out|);
    }
    AppendAccounted(dirs, src, p.out, more);
  }

  lemma BalancePadded(dirs: seq<Directive>, src: seq<Directive>, ai: map<string, AutoAccount>, p: Pass, b: Directive,
                      more: seq<Directive>)
    requires Kept(dirs, src, ai, p) && b.Balance? && b.account in ai && ai[b.account].account == b.account
    requires more == if b.account in p.pending then [b] else [AutoPad(ai[b.account], b.meta), b]
    ensures AllPadded(ai, p.out + more)
  {
    hide Accounted, ClosedZero;
    var out, a := p.out + more, b.account;
    if a in p.pending {
      var j :| 0 <= j < |p.out| && PadSince(p.out, j, |p.out|, a);
      assert PadSince(out, j, |p.out|, a);
      assert PaddedAt(out, |p.out|);
    } else {
      assert out[|p.out|] == more[0] && out[|p.out| + 1] == b;
      assert PadSince(out, |p.out|, |p.out| + 1, a);
      assert PaddedAt(out, |p.out| + 1);
    }
    AppendPadded(ai, p.out, more);
  }

  lemma BalancePending(dirs: seq<Directive>, src: seq<Directive>, ai: map<string, AutoAccount>, p: Pass,
                       more: seq<Directive>, a: string)
    requires Kept(dirs, src, ai, p) && forall i | 0 <= i < |more| && more[i].Balance? :: more[i].account == a
    ensures PendingPadded(ai, p.(pending := p.pending - {a}, out := p.out + more))
  {
    hide Accounted, ClosedZero, AllPadded;
    StillPending(ai, p, {a}, more);
  }

  lemma BalanceClosed(dirs: seq<Directive>, src: seq<Directive>, ai: map<string, AutoAccount>, p: Pass,
                      more: seq<Directive>)
    requires Kept(dirs, src, ai, p) && forall d | d in more :: !d.Close?
    ensures forall a :: ClosedZero(ai, p.(pending := p.pending - {a}, out := p.out + more))
  {
    hide Accounted, PendingPadded, AllPadded;
  }

  lemma MoreZero(dirs: seq<Directive>, src: seq<Directive>, ai: map<string, AutoAccount>, p: Pass, keys: set<string>)
    requires Kept(dirs, src, ai, p)
    ensures Kept(dirs, src, ai, p.(zero := p.zero + keys))
  {
  }

  lemma {:induction false} CloseKeeps(dirs: seq<Directive>, src: seq<Directive>, ai: map<string, AutoAccount>, p: Pass,
                                      d: Directive, ccys: seq<string>)
    requires Kept(dirs, src, ai, p) && CollectedFrom(dirs, ai) && d in dirs && d.Close? && d.account in ai
    requires forall c | c in ccys :: c in ai[d.account].currencies
    ensures Kept(dirs, src, ai, CloseCurrencies(p, ai[d.account], d.meta, ccys))
  {
    hide Kept, ZeroKey, PadBefore;
    if ccys != [] {
      var ccy, a := ccys[|ccys| - 1], ai[d.account];
      CloseKeeps(dirs, src, ai, p, d, ccys[..|ccys| - 1]);
      var q := CloseCurrencies(p, a, d.meta, ccys[..|ccys| - 1]);
      var k :| InterestOpen(dirs, k, d.account);
      var b := ZeroBalance(d.account, d.meta, ccy);
      assert ccy in dirs[k].currencies;
      assert ZeroesInterest(dirs, b);
      if ZeroKey(a.account, ccy) !in q.zero {
        BalanceKeeps(dirs, src, ai, q, b);
        MoreZero(dirs, src, ai, Emit(PadBefore(q, a, d.meta), b).(pending := q.pending - {d.account}),
                 {ZeroKey(a.account, ccy)});
        SamePending(q, a, d.meta, b);
      }
    }
  }

  /** Padding leaves the pending accounts alone. */
  lemma SamePending(q: Pass, a: AutoAccount, meta: Meta, b: Directive)
    ensures Emit(PadBefore(q, a, meta), b).pending == q.pending && Emit(PadBefore(q, a, meta), b).zero == q.zero
  {
  }

  lemma StepKeeps(dirs: seq<Directive>, src: seq<Directive>, ai: map<string, AutoAccount>, p: Pass, d: Directive)
    requires Kept(dirs, src, ai, p) && CollectedFrom(dirs, ai) && d in src && (d.Close? ==> d in dirs)
    ensures Kept(dirs, src, ai, PassStep(ai, p, d))
  {
    hide Kept, CollectedFrom, CloseCurrencies, PadBefore;
    match d
    case Balance(meta, account, amount) =>
      if account in ai {
        BalanceKeeps(dirs, src, ai, p, d);
        SamePending(p, ai[account], meta, d);
        MoreZero(dirs, src, ai, Emit(PadBefore(p, ai[account], meta), d).(pending := p.pending - {account}),
                 {ZeroKey(account, amount.commodity)});
      } else {
        EmitKeeps(dirs, src, ai, p, d);
      }
    case Close(meta, account) =>
      if account in ai {
        var q := CloseCurrencies(p, ai[account], meta, ai[account].currencies);
        CloseKeeps(dirs, src, ai, p, d, ai[account].currencies);
        CloseGrows(p, ai[account], meta, ai[account].currencies);
        AccountName(dirs, ai, account);
        EmitKeeps(dirs, src, ai, q, d);
      } else {
        EmitKeeps(dirs, src, ai, p, d);
      }
    case _ => EmitKeeps(dirs, src, ai, p, d);
  }

  lemma AccountName(dirs: seq<Directive>, ai: map<string, AutoAccount>, a: string)
    requires CollectedFrom(dirs, ai) && a in ai
    ensures ai[a].account == a
  {
    var k :| InterestOpen(dirs, k, a);
  }

  lemma {:induction false} PassKept(dirs: seq<Directive>, src: seq<Directive>, ai: map<string, AutoAccount>,
                                    zero: set<string>, read: seq<Directive>)
    requires CollectedFrom(dirs, ai) && forall d | d in read :: d in src && (d.Close? ==> d in dirs)
    ensures Kept(dirs, src, ai, RunPass(ai, Pass({}, zero, []), read))
  {
    hide Kept, CollectedFrom, PassStep;
    if read == [] {
      NothingWritten(dirs, src, ai, zero);
    } else {
      PassKept(dirs, src, ai, zero, read[..|read| - 1]);
      StepKeeps(dirs, src, ai, RunPass(ai, Pass({}, zero, []), read[..|read| - 1]), read[|read| - 1]);
    }
  }

  lemma NothingWritten(dirs: seq<Directive>, src: seq<Directive>, ai: map<string, AutoAccount>, zero: set<string>)
    ensures Kept(dirs, src, ai, Pass({}, zero, []))
  {
  }

  // ----- the whole expansion

  lemma {:induction false} OpensAreIncome(dirs: seq<Directive>, c: Collected, order: seq<string>, known: set<string>)
    requires CollectedFrom(dirs, c.byAcct) && OpenedIn(dirs) <= known
    requires forall i | 0 <= i < |order| :: order[i] in c.byAcct
    ensures OpenedIn(dirs) <= OpenIncome(c, order, known).known
    ensures forall o | o in OpenIncome(c, order, known).opens :: o.Open? && OpensIncome(dirs, o)
  {
    hide Counterpart;
    if order != [] {
      var before := order[..|order| - 1];
      OpensAreIncome(dirs, c, before, known);
      var r, a := OpenIncome(c, before, known), order[|order| - 1];
      var k :| InterestOpen(dirs, k, a);
      var o := Open(c.byAcct[a].openMeta, c.byAcct[a].income, c.byAcct[a].currencies, None);
      if c.byAcct[a].income !in r.known {
        assert forall d | d in dirs && d.Open? :: d.account in OpenedIn(dirs);
        assert OpensIncome(dirs, o);
      }
    }
  }

  /** No commodity of a balance or of an open contains a bar. */
  ghost predicate BarlessNames(dirs: seq<Directive>) {
    forall d | d in dirs ::
      (d.Balance? ==> '|' !in d.amount.commodity) && (d.Open? ==> forall c | c in d.currencies :: '|' !in c)
  }

  /**
    What expansion adds. Every directive of the expansion that is not in the stream is: the open of the
    income counterpart of an interest account; or a pad of an interest account from its counterpart, right
    before a balance on it and dated the day before that, but not before the open; or a zero balance for a
    close, in a currency of the open.
  */
  lemma ExpansionAdds(dirs: seq<Directive>, i: nat)
    requires i < |ExpandAutoInterest(dirs)| && ExpandAutoInterest(dirs)[i] !in dirs
    ensures var d := ExpandAutoInterest(dirs)[i];
            match d
            case Open(_, _, _, _) => OpensIncome(dirs, d)
            case Pad(_, _, _) => PadsInterest(dirs, ExpandAutoInterest(dirs), i)
            case Balance(_, _, _) => ZeroesInterest(dirs, d)
            case _ => false
  {
    hide Kept, CollectedFrom, OpensIncome, PadsInterest, ZeroesInterest, OpenIncome, RunPass, InterestOpen;
    var c := Collect(dirs);
    if c.order != [] {
      ExpansionKept(dirs);
      OrderKnown(dirs);
      OpensAreIncome(dirs, c, c.order, OpenedIn(dirs));
      var opens, src := OpenIncome(c, c.order, OpenedIn(dirs)).opens, WithIncome(dirs);
      assert forall d | d in src :: d in opens || d in dirs;
      KeptAccounts(dirs, src, c.byAcct, RunPass(c.byAcct, Pass({}, ZeroKeys(src), []), src), i);
    }
  }

  lemma KeptAccounts(dirs: seq<Directive>, src: seq<Directive>, ai: map<string, AutoAccount>, p: Pass, i: nat)
    requires Kept(dirs, src, ai, p) && i < |p.out|
    ensures p.out[i] !in src ==>
              if p.out[i].Pad? then PadsInterest(dirs, p.out, i)
              else p.out[i].Balance? && ZeroesInterest(dirs, p.out[i])
    ensures p.out[i].Balance? && p.out[i].account in ai ==> PaddedAt(p.out, i)
    ensures p.out[i].Close? && p.out[i].account in ai ==>
              forall c | c in ai[p.out[i].account].currencies :: ZeroKey(p.out[i].account, c) in p.zero
  {
  }

  lemma ExpansionKept(dirs: seq<Directive>)
    requires Collect(dirs).order != []
    ensures var c, src := Collect(dirs), WithIncome(dirs);
            CollectedFrom(dirs, c.byAcct)
            && Kept(dirs, src, c.byAcct, RunPass(c.byAcct, Pass({}, ZeroKeys(src), []), src))
  {
    hide Kept, OpensIncome, CollectedFrom, ZeroKeys;
    var c, src := Collect(dirs), WithIncome(dirs);
    CollectIsFrom(dirs);
    OrderKnown(dirs);
    OpensAreIncome(dirs, c, c.order, OpenedIn(dirs));
    assert forall x | x in src :: x in OpenIncome(c, c.order, OpenedIn(dirs)).opens || x in dirs;
    PassKept(dirs, src, c.byAcct, ZeroKeys(src), src);
  }

  lemma NoInterest(dirs: seq<Directive>, a: string)
    requires Collect(dirs).order == []
    ensures !InterestAccount(dirs, a)
  {
    hide InterestAccount;
    CollectIsFrom(dirs);
    NoneCollected(dirs);
  }

  /** Every balance of the expansion on an interest account has a pad on it since the balance before it. */
  lemma BalancesArePadded(dirs: seq<Directive>, i: nat)
    requires i < |ExpandAutoInterest(dirs)| && ExpandAutoInterest(dirs)[i].Balance?
    requires InterestAccount(dirs, ExpandAutoInterest(dirs)[i].account)
    ensures PaddedAt(ExpandAutoInterest(dirs), i)
  {
    hide Kept, PaddedAt, InterestAccount, OpenIncome, RunPass;
    var c := Collect(dirs);
    if c.order == [] {
      NoInterest(dirs, ExpandAutoInterest(dirs)[i].account);
    } else {
      ExpansionKept(dirs);
      var src := WithIncome(dirs);
      KeptAccounts(dirs, src, c.byAcct, RunPass(c.byAcct, Pass({}, ZeroKeys(src), []), src), i);
    }
  }

  /** Every close of an interest account has, in the expansion, a zero balance in each currency of its open. */
  lemma ClosesAreZeroed(dirs: seq<Directive>, d: Directive, k: nat, ccy: string)
    requires d in dirs && d.Close? && InterestOpen(dirs, k, d.account) && ccy in dirs[k].currencies
    requires BarlessNames(dirs)
    ensures exists b | b in ExpandAutoInterest(dirs) ::
              b.Balance? && b.account == d.account && b.amount == Amount(0.0, ccy)
  {
    hide Kept, OpenIncome, RunPass, ZeroKey, BarlessNames;
    var c := Collect(dirs);
    if c.order == [] {
      NoInterest(dirs, d.account);
    } else {
      ExpansionKept(dirs);
      ExpandKeeps(dirs);
      var src := WithIncome(dirs);
      var i :| 0 <= i < |ExpandAutoInterest(dirs)| && ExpandAutoInterest(dirs)[i] == d;
      KeptAccounts(dirs, src, c.byAcct, RunPass(c.byAcct, Pass({}, ZeroKeys(src), []), src), i);
      ZeroStands(dirs, d.account, ccy, k);
    }
  }

  lemma {:induction false} NoneCollected(dirs: seq<Directive>)
    ensures Collect(dirs).order == [] ==> Collect(dirs).byAcct == map[]
  {
    if dirs != [] { NoneCollected(dirs[..|dirs| - 1]); }
  }

  /** A zero key that the expansion has written stands for a zero balance in it. */
  lemma ZeroStands(dirs: seq<Directive>, a: string, ccy: string, k: int)
    requires Collect(dirs).order != [] && BarlessNames(dirs)
    requires InterestOpen(dirs, k, a) && ccy in dirs[k].currencies
    requires ZeroKey(a, ccy) in
               RunPass(Collect(dirs).byAcct, Pass({}, ZeroKeys(WithIncome(dirs)), []), WithIncome(dirs)).zero
    ensures exists b | b in ExpandAutoInterest(dirs) :: b.Balance? && b.account == a && b.amount == Amount(0.0, ccy)
  {
    hide RunPass, OpenIncome, Collect;
    var src, out, ai := WithIncome(dirs), ExpandAutoInterest(dirs), Collect(dirs).byAcct;
    CollectNamed(dirs);
    PassWritten(ai, ZeroKeys(src), src);
    PassKeeps(ai, ZeroKeys(src), src);
    var b :| (b in src || b in out) && IsZero(b) && ZeroKey(b.account, b.amount.commodity) == ZeroKey(a, ccy);
    assert b in out;
    assert '|' !in b.amount.commodity by { BalanceBarless(dirs, b); }
    assert dirs[k] in dirs;
    JoinedAlike(a, ccy, b.account, b.amount.commodity);
  }

  lemma BalanceBarless(dirs: seq<Directive>, b: Directive)
    requires BarlessNames(dirs) && b in ExpandAutoInterest(dirs) && b.Balance?
    ensures '|' !in b.amount.commodity
  {
    if b !in dirs {
      var i :| 0 <= i < |ExpandAutoInterest(dirs)| && ExpandAutoInterest(dirs)[i] == b;
      ExpansionAdds(dirs, i);
      var k :| InterestOpen(dirs, k, b.account) && b.amount.commodity in dirs[k].currencies;
      assert dirs[k] in dirs;
    }
  }

  /** The counterpart of every interest account is opened in the expansion. */
  lemma CounterpartsOpened(dirs: seq<Directive>, a: string, income: string)
    requires InterestAccount(dirs, a) && Counterpart(a, income)
    ensures exists o | o in ExpandAutoInterest(dirs) :: o.Open? && o.account == income
  {
    hide OpenIncome, RunPass, Collect;
    var c := Collect(dirs);
    CollectIsFrom(dirs);
    OrderKnown(dirs);
    OrderHas(dirs, a);
    var k :| InterestOpen(dirs, k, a);
    IncomeKnown(c, c.order, OpenedIn(dirs));
    var i :| 0 <= i < |c.order| && c.order[i] == a;
    var src := WithIncome(dirs);
    PassKeeps(c.byAcct, ZeroKeys(src), src);
    var o :| o in src && o.Open? && o.account == income;
    assert o in ExpandAutoInterest(dirs);
  }

  lemma {:induction false} OrderHas(dirs: seq<Directive>, a: string)
    ensures a in Collect(dirs).byAcct <==> a in Collect(dirs).order
  {
    if dirs != [] { OrderHas(dirs[..|dirs| - 1], a); }
  }

  // ----- the stream keeps its order

  /** The directives of read stand in out at the places, in order. */
  ghost predicate Placed(read: seq<Directive>, out: seq<Directive>, places: seq<nat>) {
    && |places| == |read| && (forall i, j | 0 <= i < j < |places| :: places[i] < places[j])
    && forall i | 0 <= i < |places| :: places[i] < |out| && out[places[i]] == read[i]
  }

  lemma StepLast(ai: map<string, AutoAccount>, p: Pass, d: Directive)
    ensures var out := PassStep(ai, p, d).out; |out| > |p.out| && p.out <= out && out[|out| - 1] == d
  {
    hide CloseCurrencies;
    match d
    case Close(meta, account) => if account in ai { CloseGrows(p, ai[account], meta, ai[account].currencies); }
    case _ =>
  }

  lemma {:induction false} PassPlaces(ai: map<string, AutoAccount>, p: Pass, read: seq<Directive>)
      returns (places: seq<nat>)
    ensures |places| == |read| && Placed(read, RunPass(ai, p, read).out, places)
  {
    hide PassStep;
    places := [];
    if read != [] {
      var n := |read| - 1;
      var before := RunPass(ai, p, read[..n]);
      var earlier := PassPlaces(ai, p, read[..n]);
      StepLast(ai, before, read[n]);
      var out := PassStep(ai, before, read[n]).out;
      places := earlier + [|out| - 1];
      forall i | 0 <= i < |places| ensures places[i] < |out| && out[places[i]] == read[i] {
        assert i < n ==> out[earlier[i]] == before.out[earlier[i]] && read[..n][i] == read[i];
      }
    }
  }

  /** The directives of the stream stand in the expansion in their order, each as often as before. */
  lemma ExpansionKeepsOrder(dirs: seq<Directive>) returns (places: seq<nat>)
    ensures Placed(dirs, ExpandAutoInterest(dirs), places)
  {
    hide Placed;
    var c := Collect(dirs);
    if c.order == [] {
      places := seq(|dirs|, i => i);
      InPlace(dirs, places);
    } else {
      var src := WithIncome(dirs);
      OrderKnown(dirs);
      var opens := |OpenIncome(c, c.order, OpenedIn(dirs)).opens|;
      var all := PassPlaces(c.byAcct, Pass({}, ZeroKeys(src), []), src);
      places := all[opens..];
      assert src[opens..] == dirs;
      LastPlaces(src, ExpandAutoInterest(dirs), all, opens);
    }
  }

  lemma InPlace(dirs: seq<Directive>, places: seq<nat>)
    requires |places| == |dirs| && forall i | 0 <= i < |places| :: places[i] == i
    ensures Placed(dirs, dirs, places)
  {
  }

  lemma LastPlaces(read: seq<Directive>, out: seq<Directive>, places: seq<nat>, k: nat)
    requires Placed(read, out, places) && k <= |read|
    ensures Placed(read[k..], out, places[k..])
  {
  }
}
