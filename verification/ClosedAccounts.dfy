/** What a run without errors can still post to a closed account. */
module ClosedAccounts {
  import opened Ast
  import opened Sorting
  import opened Ordering
  import opened Booking
  import opened Journal
  import opened Lifecycle
  import Pads

  /** A pad fires for the balance at position i. */
  ghost predicate FiresAt(cfg: Config, ds: seq<Directive>, i: nat)
    requires i < |ds|
  {
    ds[i].Balance? && Fires(cfg, Run(cfg, EMPTY, ds[..i]), ds[i])
  }

  /** A line made by a pad. */
  predicate IsPadLine(t: BookedTxn) {
    t.flag == "P" && t.postings == []
  }

  /** A step adds at most one line: its transaction's, on the accounts of the postings, or its pad's. */
  lemma StepLine(cfg: Config, s: State, d: Directive)
    ensures var s' := Apply(cfg, s, d);
            || s'.txns == s.txns
            || (d.Transaction? && exists filled ::
                  s'.txns == s.txns + [BookedTxn(d.meta, d.flag, d.postings, filled)] && OnAccounts(filled, d.postings))
            || (d.Balance? && Fires(cfg, s, d) && d.account in s.pad
                && s'.txns == s.txns + [PadLine(s.pad[d.account], d, Shortfall(s, d))])
  {
    hide PlanAll, Prepare, Commit, OnAccounts, Holds, PadLine;
    match d
    case Transaction(_, _, _) =>
      PrepareSome(cfg, s, d);
      if Prepare(cfg, s, d).Some? {
        PreparedOnAccounts(cfg, s, d);
        CommitShape(s, d, Prepare(cfg, s, d).value);
      }
    case Balance(_, _, _) =>
      BalanceShape(cfg, s, d);
    case _ =>
  }

  lemma ClosedLater(ds: seq<Directive>, a: string, date: Date, later: Date)
    requires ClosedBefore(ds, a, date) && date <= later
    ensures ClosedBefore(ds, a, later)
  {
    var i :| 0 <= i < |ds| && IsCloseOf(ds[i], a) && ds[i].meta.date < date;
    assert ds[i].meta.date < later;
  }

  /** The pad that fires was put down by an earlier directive, dated no later than the balance. */
  lemma PadIsEarlier(cfg: Config, ds: seq<Directive>, i: nat) returns (q: nat)
    requires InOrder(ds) && i < |ds| && FiresAt(cfg, ds, i)
    ensures q < i && ds[q].Pad? && ds[q].account == ds[i].account
    ensures ds[i].account in Run(cfg, EMPTY, ds[..i]).pad
    ensures Run(cfg, EMPTY, ds[..i]).pad[ds[i].account].meta == ds[q].meta && ds[q].meta.date <= ds[i].meta.date
  {
    hide Run, Holds;
    FiresPending(cfg, Run(cfg, EMPTY, ds[..i]), ds[i]);
    q := Pads.PendingSince(cfg, ds[..i], ds[i].account);
    assert ds[..i][q] == ds[q];
    assert !DirectiveLess(ds[i], ds[q]);
  }

  lemma FireChecked(cfg: Config, s: State, b: Directive)
    requires b.Balance? && Fires(cfg, s, b) && ErrorFree(BookBalance(cfg, s, b).diags)
    ensures ErrorFree(CheckAccount(s, b.meta.date, s.pad[b.account].fromAccount))
  {
    hide Holds, CheckAccount;
    assert FirePad(s, b).diags <= BookBalance(cfg, s, b).diags;
    assert CheckAccount(s, b.meta.date, s.pad[b.account].fromAccount) <= FirePad(s, b).diags;
  }

  /** The source of a pad that fires without an error is not closed. */
  lemma SourceOpen(cfg: Config, ds: seq<Directive>, i: nat)
    requires InOrder(ds) && i < |ds| && ErrorFree(Run(cfg, EMPTY, ds).diags) && FiresAt(cfg, ds, i)
    ensures ds[i].account in Run(cfg, EMPTY, ds[..i]).pad
    ensures !ClosedBefore(ds, Run(cfg, EMPTY, ds[..i]).pad[ds[i].account].fromAccount, ds[i].meta.date)
  {
    hide Run, BookBalance, CheckAccount, InOrder, OpenedBy, ClosedBefore, Holds;
    var s := Run(cfg, EMPTY, ds[..i]);
    FiresPending(cfg, s, ds[i]);
    RunNext(cfg, ds, i);
    DiagsMonotone(cfg, ds, i + 1);
    FireChecked(cfg, s, ds[i]);
    CheckExact(cfg, ds, i, s.pad[ds[i].account].fromAccount);
    ClosedIsError(ds, ds[i].meta.date, s.pad[ds[i].account].fromAccount);
  }

  /** The line that step i adds to the journal. */
  ghost predicate AddsLine(cfg: Config, ds: seq<Directive>, i: nat, line: BookedTxn)
    requires i < |ds|
  {
    Run(cfg, EMPTY, ds[..i + 1]).txns == Run(cfg, EMPTY, ds[..i]).txns + [line]
  }

  /** The legs of a line on the accounts that are closed by the day it is posted. */
  ghost predicate OnClosed(ds: seq<Directive>, line: BookedTxn, l: int, date: Date) {
    0 <= l < |line.filled| && ClosedBefore(ds, line.filled[l].account, date)
  }

  lemma SameLine(p: seq<BookedTxn>, x: BookedTxn, y: BookedTxn)
    requires p + [x] == p + [y]
    ensures x == y
  {
    assert (p + [x])[|p|] == (p + [y])[|p|];
  }

  /**
    In a sorted run without errors the only legs posted to an account closed on an earlier day are
    the first legs of pads that fire: the account a balance asserts is not checked.
  */
  lemma OnlyPadsPostToClosed(cfg: Config, ds: seq<Directive>, i: nat, line: BookedTxn, l: int)
    requires InOrder(ds) && i < |ds| && ErrorFree(Run(cfg, EMPTY, ds).diags)
    requires AddsLine(cfg, ds, i, line) && OnClosed(ds, line, l, ds[i].meta.date)
    ensures FiresAt(cfg, ds, i) && IsPadLine(line) && l == 0 && line.filled[0].account == ds[i].account
  {
    hide Run, Apply, InOrder, ClosedBefore, ErrorFree, Fires, OnAccounts, Shortfall;
    var s, d := Run(cfg, EMPTY, ds[..i]), ds[i];
    RunNext(cfg, ds, i);
    StepLine(cfg, s, d);
    assert s.txns + [line] != s.txns;
    if d.Transaction? {
      var filled :| s.txns + [line] == s.txns + [BookedTxn(d.meta, d.flag, d.postings, filled)]
                    && OnAccounts(filled, d.postings);
      SameLine(s.txns, line, BookedTxn(d.meta, d.flag, d.postings, filled));
      LegNotClosed(cfg, ds, i, filled, l);
      assert false;
    } else {
      SameLine(s.txns, line, PadLine(s.pad[d.account], d, Shortfall(s, d)));
      SourceOpen(cfg, ds, i);
    }
  }

  lemma LegNotClosed(cfg: Config, ds: seq<Directive>, i: nat, filled: seq<Filled>, l: int)
    requires InOrder(ds) && i < |ds| && ds[i].Transaction? && ErrorFree(Run(cfg, EMPTY, ds).diags)
    requires OnAccounts(filled, ds[i].postings) && 0 <= l < |filled|
    ensures !ClosedBefore(ds, filled[l].account, ds[i].meta.date)
  {
    hide Run, InOrder, ClosedBefore, ErrorFree;
    assert HasAccount(ds[i].postings, filled[l].account);
    var p :| 0 <= p < |ds[i].postings| && ds[i].postings[p].account == filled[l].account;
    PostingNotAfterClose(cfg, ds, i, p);
  }

  // ----- over the journal

  /** The pad that fires at position i is dated after a close of the account it pads. */
  ghost predicate PadsClosed(cfg: Config, ds: seq<Directive>, i: nat)
    requires i < |ds|
  {
    && FiresAt(cfg, ds, i)
    && var s := Run(cfg, EMPTY, ds[..i]);
       ds[i].account in s.pad && ClosedBefore(ds, ds[i].account, s.pad[ds[i].account].meta.date)
  }

  /** A leg of the journal dated after a close of its account. */
  ghost predicate LegAfterClose(ds: seq<Directive>, txns: seq<BookedTxn>, m: int, l: int) {
    0 <= m < |txns| && OnClosed(ds, txns[m], l, txns[m].meta.date)
  }

  lemma AddedLine(cfg: Config, ds: seq<Directive>, i: nat)
    requires InOrder(ds) && i < |ds|
    ensures var s, s' := Run(cfg, EMPTY, ds[..i]), Run(cfg, EMPTY, ds[..i + 1]);
            || s'.txns == s.txns
            || exists line :: AddsLine(cfg, ds, i, line) && line.meta.date <= ds[i].meta.date
    ensures FiresAt(cfg, ds, i) ==>
              var s := Run(cfg, EMPTY, ds[..i]);
              ds[i].account in s.pad && AddsLine(cfg, ds, i, PadLine(s.pad[ds[i].account], ds[i], Shortfall(s, ds[i])))
  {
    hide Run, Apply, InOrder, Fires, OnAccounts, Shortfall;
    var s, d := Run(cfg, EMPTY, ds[..i]), ds[i];
    RunNext(cfg, ds, i);
    StepLine(cfg, s, d);
    if d.Transaction? && Apply(cfg, s, d).txns != s.txns {
      var filled :| Apply(cfg, s, d).txns == s.txns + [BookedTxn(d.meta, d.flag, d.postings, filled)]
                    && OnAccounts(filled, d.postings);
      assert AddsLine(cfg, ds, i, BookedTxn(d.meta, d.flag, d.postings, filled));
    }
    if FiresAt(cfg, ds, i) {
      var q := PadIsEarlier(cfg, ds, i);
      FireAdds(cfg, s, d);
    }
  }

  lemma FireAdds(cfg: Config, s: State, b: Directive)
    requires b.Balance? && Fires(cfg, s, b)
    ensures Apply(cfg, s, b).txns == s.txns + [PadLine(s.pad[b.account], b, Shortfall(s, b))]
  {
    hide Holds, CheckAccount;
    BalanceShape(cfg, s, b);
  }

  /** What the journal of the first n steps holds on closed accounts. */
  ghost predicate ClosedLegs(cfg: Config, ds: seq<Directive>, n: nat)
    requires n <= |ds|
  {
    var txns := Run(cfg, EMPTY, ds[..n]).txns;
    && (forall m, l | LegAfterClose(ds, txns, m, l) ::
          IsPadLine(txns[m]) && l == 0 && exists i | 0 <= i < n :: PadsClosed(cfg, ds, i))
    && ((exists i | 0 <= i < n :: PadsClosed(cfg, ds, i)) ==> exists m :: LegAfterClose(ds, txns, m, 0))
  }

  lemma SameTxns(cfg: Config, ds: seq<Directive>, n: nat)
    requires n < |ds| && ClosedLegs(cfg, ds, n) && Run(cfg, EMPTY, ds[..n + 1]).txns == Run(cfg, EMPTY, ds[..n]).txns
    requires !PadsClosed(cfg, ds, n)
    ensures ClosedLegs(cfg, ds, n + 1)
  {
    hide Run, PadsClosed, LegAfterClose;
  }

  lemma MoreTxns(cfg: Config, ds: seq<Directive>, n: nat, line: BookedTxn)
    requires n < |ds| && ClosedLegs(cfg, ds, n) && AddsLine(cfg, ds, n, line)
    requires forall l | OnClosed(ds, line, l, line.meta.date) :: IsPadLine(line) && l == 0 && PadsClosed(cfg, ds, n)
    requires PadsClosed(cfg, ds, n) ==> OnClosed(ds, line, 0, line.meta.date)
    ensures ClosedLegs(cfg, ds, n + 1)
  {
    hide Run, PadsClosed, OnClosed;
    var txns, txns' := Run(cfg, EMPTY, ds[..n]).txns, Run(cfg, EMPTY, ds[..n + 1]).txns;
    forall m, l | LegAfterClose(ds, txns', m, l)
      ensures IsPadLine(txns'[m]) && l == 0 && exists i | 0 <= i < n + 1 :: PadsClosed(cfg, ds, i)
    {
      if m < |txns| {
        assert txns'[m] == txns[m];
        assert LegAfterClose(ds, txns, m, l);
      } else {
        assert txns'[m] == line;
      }
    }
    if PadsClosed(cfg, ds, n) {
      assert LegAfterClose(ds, txns', |txns|, 0);
    } else if i :| 0 <= i < n && PadsClosed(cfg, ds, i) {
      var m :| LegAfterClose(ds, txns, m, 0);
      assert txns'[m] == txns[m] && LegAfterClose(ds, txns', m, 0);
    }
  }

  lemma PadsClosedLine(cfg: Config, ds: seq<Directive>, n: nat, line: BookedTxn)
    requires InOrder(ds) && n < |ds| && AddsLine(cfg, ds, n, line)
    ensures FiresAt(cfg, ds, n) ==>
              (PadsClosed(cfg, ds, n) <==> OnClosed(ds, line, 0, line.meta.date))
  {
    hide Run, InOrder, ClosedBefore, Fires, Shortfall;
    if FiresAt(cfg, ds, n) {
      var s := Run(cfg, EMPTY, ds[..n]);
      AddedLine(cfg, ds, n);
      SameLine(s.txns, line, PadLine(s.pad[ds[n].account], ds[n], Shortfall(s, ds[n])));
    }
  }

  lemma {:induction false} ClosedLegsSoFar(cfg: Config, ds: seq<Directive>, n: nat)
    requires InOrder(ds) && n <= |ds| && ErrorFree(Run(cfg, EMPTY, ds).diags)
    ensures ClosedLegs(cfg, ds, n)
  {
    hide Run, InOrder, ErrorFree, ClosedLegs, AddsLine, FiresAt, PadLine;
    if n == 0 {
      RunEmpty(cfg, ds);
      NoLegsYet(cfg, ds);
    } else {
      var i := n - 1;
      ClosedLegsSoFar(cfg, ds, i);
      AddedLine(cfg, ds, i);
      if line :| AddsLine(cfg, ds, i, line) && line.meta.date <= ds[i].meta.date {
        forall l | OnClosed(ds, line, l, line.meta.date)
          ensures IsPadLine(line) && l == 0 && PadsClosed(cfg, ds, i)
        {
          ClosedLater(ds, line.filled[l].account, line.meta.date, ds[i].meta.date);
          OnlyPadsPostToClosed(cfg, ds, i, line, l);
          PadsClosedLine(cfg, ds, i, line);
        }
        PadsClosedLine(cfg, ds, i, line);
        MoreTxns(cfg, ds, i, line);
      } else {
        FiringAddsLine(cfg, ds, i);
        SameTxns(cfg, ds, i);
      }
    }
  }

  lemma NoLegsYet(cfg: Config, ds: seq<Directive>)
    requires Run(cfg, EMPTY, ds[..0]) == EMPTY
    ensures ClosedLegs(cfg, ds, 0)
  {
    hide Run;
  }

  lemma FiringAddsLine(cfg: Config, ds: seq<Directive>, i: nat)
    requires InOrder(ds) && i < |ds|
    ensures FiresAt(cfg, ds, i) ==> exists line :: AddsLine(cfg, ds, i, line) && line.meta.date <= ds[i].meta.date
  {
    hide Run, InOrder, Fires, Shortfall, AddsLine;
    if FiresAt(cfg, ds, i) {
      AddedLine(cfg, ds, i);
      var q := PadIsEarlier(cfg, ds, i);
      var s := Run(cfg, EMPTY, ds[..i]);
      assert AddsLine(cfg, ds, i, PadLine(s.pad[ds[i].account], ds[i], Shortfall(s, ds[i])));
    }
  }

  /**
    Nothing is posted after a close, exactly: the journal of a sorted run without errors has a leg
    dated after a close of its account if and only if a pad fires that is dated after a close of
    the account it pads; such a leg is then the first leg of a pad's line.
  */
  lemma LegsAfterCloseExactly(cfg: Config, ds: seq<Directive>)
    requires InOrder(ds) && ErrorFree(Run(cfg, EMPTY, ds).diags)
    ensures var txns := Run(cfg, EMPTY, ds).txns;
            && (forall m, l | LegAfterClose(ds, txns, m, l) :: IsPadLine(txns[m]) && l == 0)
            && ((exists m, l :: LegAfterClose(ds, txns, m, l)) <==> exists i | 0 <= i < |ds| :: PadsClosed(cfg, ds, i))
  {
    hide Run, InOrder, ErrorFree, PadsClosed, LegAfterClose;
    ClosedLegsSoFar(cfg, ds, |ds|);
    assert ds[..|ds|] == ds;
  }

  /** No pad is dated after a close of the account it pads. */
  ghost predicate PadsInTime(ds: seq<Directive>) {
    forall i | 0 <= i < |ds| && ds[i].Pad? :: !ClosedBefore(ds, ds[i].account, ds[i].meta.date)
  }

  /** So without such pads no leg of the journal is dated after a close of its account. */
  lemma NothingAfterClose(cfg: Config, ds: seq<Directive>, m: int, l: int)
    requires InOrder(ds) && ErrorFree(Run(cfg, EMPTY, ds).diags) && PadsInTime(ds)
    ensures !LegAfterClose(ds, Run(cfg, EMPTY, ds).txns, m, l)
  {
    hide Run, ErrorFree, LegAfterClose, ClosedBefore;
    LegsAfterCloseExactly(cfg, ds);
    forall i | 0 <= i < |ds| && FiresAt(cfg, ds, i) ensures !PadsClosed(cfg, ds, i) {
      var q := PadIsEarlier(cfg, ds, i);
      assert !ClosedBefore(ds, ds[q].account, ds[q].meta.date);
    }
  }

  // ----- a pad that posts to a closed account

  const OPENS := [Open(Day(1), "A", [], None), Open(Day(1), "B", [], None)]
  const AFTER_CLOSE := [Close(Day(2), "A"), Pad(Day(5), "A", "B"), Balance(Day(5), "A", Amount(3.0, "USD"))]
  const PADDED := EMPTY.(open := map["A" := 1, "B" := 1], close := map["A" := 2],
                         pad := map["A" := PendingPad(Day(5), "B")])

  lemma PaddedState()
    ensures Run(FRESH, EMPTY, OPENS + AFTER_CLOSE[..2]) == PADDED
  {
    var ds := OPENS + AFTER_CLOSE[..2];
    assert ds[..3][..2] == OPENS && OPENS[..1] == [OPENS[0]] && [OPENS[0]][..0] == [];
    assert ds[..3] == OPENS + [AFTER_CLOSE[0]];
    var s1 := EMPTY.(open := map["A" := 1]);
    assert Run(FRESH, EMPTY, [OPENS[0]]) == s1;
    assert Run(FRESH, EMPTY, OPENS) == s1.(open := map["A" := 1, "B" := 1]);
    assert Run(FRESH, EMPTY, ds[..3]) == s1.(open := map["A" := 1, "B" := 1], close := map["A" := 2]);
  }

  lemma PaddedFires()
    ensures var b := AFTER_CLOSE[2];
            Fires(FRESH, PADDED, b) && BookBalance(FRESH, PADDED, b).diags == multiset{}
            && BookBalance(FRESH, PADDED, b).txns == [PadLine(PendingPad(Day(5), "B"), b, 3.0)]
            && BookBalance(FRESH, PADDED, b).close == map["A" := 2]
  {
    var b := AFTER_CLOSE[2];
    assert Shortfall(PADDED, b) == 3.0;
    assert CheckAccount(PADDED, 5, "B") == multiset{};
  }

  /** The failing input: a pad and a balance on an account closed three days before book in silence. */
  lemma PadPostsToClosed()
    ensures var ds := OPENS + AFTER_CLOSE;
            var s := Run(FRESH, EMPTY, ds);
            && InOrder(ds) && s.diags == multiset{} && s.close == map["A" := 2]
            && s.txns == [PadLine(PendingPad(Day(5), "B"), AFTER_CLOSE[2], 3.0)]
            && LegAfterClose(ds, s.txns, 0, 0)
  {
    hide Run, BookBalance, Fires;
    var ds := OPENS + AFTER_CLOSE;
    PaddedState();
    PaddedFires();
    assert ds[..4] == OPENS + AFTER_CLOSE[..2];
    assert ds[..5] == ds;
    RunNext(FRESH, ds, 4);
    assert IsCloseOf(ds[2], "A") && ds[2].meta.date < 5;
  }
}
