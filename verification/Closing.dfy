/** Closing metadata: a marked posting becomes a zero balance and a close on the next day. */
module Closing {
  import opened Ast
  import opened Names
  import opened Sorting
  import opened Ordering
  import opened Booking
  import opened Lifecycle
  import opened ClosedAccounts
  import opened ClosingMarks
  import EngineLoops
  import AutoInterest
  import InterestPads

  function NextDay(meta: Meta): Meta {
    meta.(date := meta.date + 1)
  }

  function BalKey(fp: Filled): string
    requires fp.units.Some?
  {
    fp.account + "|" + fp.units.value.commodity
  }

  /** A marked leg whose commodity is known. */
  predicate Marked(fp: Filled) {
    fp.closing && fp.units.Some? && fp.units.value.commodity != ""
  }

  function ZeroAt(meta: Meta, fp: Filled): Directive
    requires Marked(fp)
  {
    Balance(NextDay(meta), fp.account, Amount(0.0, fp.units.value.commodity))
  }

  function CloseAt(meta: Meta, fp: Filled): Directive {
    Close(NextDay(meta), fp.account)
  }

  /** Balances and closes planned so far, and the directives they became. */
  datatype Plan = Plan(balances: set<string>, closes: set<string>, synth: seq<Directive>)

  function PlanLeg(userClose: set<string>, meta: Meta, fp: Filled, plan: Plan): Plan {
    if !Marked(fp) then plan
    else
      var p1 := if BalKey(fp) in plan.balances then plan
                else plan.(balances := plan.balances + {BalKey(fp)}, synth := plan.synth + [ZeroAt(meta, fp)]);
      if fp.account in userClose || fp.account in p1.closes then p1
      else p1.(closes := p1.closes + {fp.account}, synth := p1.synth + [CloseAt(meta, fp)])
  }

  function PlanLine(userClose: set<string>, meta: Meta, filled: seq<Filled>, plan: Plan): Plan {
    if filled == [] then plan
    else PlanLeg(userClose, meta, filled[|filled| - 1], PlanLine(userClose, meta, filled[..|filled| - 1], plan))
  }

  function PlanLines(userClose: set<string>, booked: seq<BookedTxn>): Plan {
    if booked == [] then Plan({}, {}, [])
    else
      var t := booked[|booked| - 1];
      PlanLine(userClose, t.meta, t.filled, PlanLines(userClose, booked[..|booked| - 1]))
  }

  function UserClose(dirs: seq<Directive>): set<string> {
    set d | d in dirs && d.Close? && d.account != "" :: d.account
  }

  function ExpandClosing(dirs: seq<Directive>, booked: seq<BookedTxn>): seq<Directive> {
    dirs + PlanLines(UserClose(dirs), booked).synth
  }

  /** The stream that BookWithClosing books in the end. */
  ghost function ClosingStream(cfg: Config, dirs: seq<Directive>): seq<Directive> {
    if !HasClosing(dirs) then dirs
    else AutoInterest.ExpandAutoInterest(ExpandClosing(dirs, Run(cfg, EMPTY, SortDirectives(dirs)).txns))
  }

  /** The j-th leg of the i-th journal line carries closing metadata and names a commodity. */
  predicate MarkedAt(booked: seq<BookedTxn>, i: int, j: int) {
    && 0 <= i < |booked| && 0 <= j < |booked[i].filled|
    && var fp := booked[i].filled[j]; fp.closing && fp.units.Some? && fp.units.value.commodity != ""
  }

  /** No commodity of a marked leg contains a bar. */
  ghost predicate BarlessMarks(booked: seq<BookedTxn>) {
    forall i, j | MarkedAt(booked, i, j) :: '|' !in booked[i].filled[j].units.value.commodity
  }

  predicate SamePart(x: Filled, y: Filled) {
    x.account == y.account && x.units.Some? && y.units.Some? && x.units.value.commodity == y.units.value.commodity
  }

  /** Leg (i, j) comes before leg (k, l) in the journal. */
  predicate Before(i: int, j: int, k: int, l: int) {
    i < k || (i == k && j < l)
  }

  /** The first marked leg of its account and commodity. */
  ghost predicate FirstMarked(booked: seq<BookedTxn>, i: nat, j: nat) {
    MarkedAt(booked, i, j) &&
    forall k, l | MarkedAt(booked, k, l) && Before(k, l, i, j) :: !SamePart(booked[k].filled[l], booked[i].filled[j])
  }

  // ----- what the plan contains

  /** Planned balances are exactly those of marked legs, and only grow. */
  lemma LegPlans(userClose: set<string>, meta: Meta, fp: Filled, plan: Plan)
    ensures var p := PlanLeg(userClose, meta, fp, plan);
            && p.balances == plan.balances + (if Marked(fp) then {BalKey(fp)} else {})
            && plan.synth <= p.synth && plan.closes <= p.closes
            && (Marked(fp) && BalKey(fp) !in plan.balances ==> ZeroAt(meta, fp) in p.synth)
            && (forall d | d in p.synth && d !in plan.synth ::
                  Marked(fp) && (d == ZeroAt(meta, fp) || (d == CloseAt(meta, fp) && fp.account !in userClose)))
  {
  }

  lemma {:induction false} LinePlans(userClose: set<string>, meta: Meta, filled: seq<Filled>, plan: Plan)
    ensures var p := PlanLine(userClose, meta, filled, plan);
            && (forall b ::
                  b in p.balances <==>
                  b in plan.balances || exists j | 0 <= j < |filled| :: Marked(filled[j]) && BalKey(filled[j]) == b)
            && plan.synth <= p.synth
  {
    if filled != [] {
      var n := |filled| - 1;
      LinePlans(userClose, meta, filled[..n], plan);
      LegPlans(userClose, meta, filled[n], PlanLine(userClose, meta, filled[..n], plan));
      assert filled == filled[..n] + [filled[n]];
    }
  }

  lemma {:induction false} LinePrefix(userClose: set<string>, meta: Meta, filled: seq<Filled>, plan: Plan, j: nat)
    requires j <= |filled|
    ensures PlanLine(userClose, meta, filled[..j], plan).synth <= PlanLine(userClose, meta, filled, plan).synth
    decreases |filled|
  {
    hide PlanLeg;
    if j == |filled| {
      assert filled[..j] == filled;
    } else {
      var n := |filled| - 1;
      LinePrefix(userClose, meta, filled[..n], plan, j);
      assert filled[..n][..j] == filled[..j];
      LegPlans(userClose, meta, filled[n], PlanLine(userClose, meta, filled[..n], plan));
    }
  }

  lemma {:induction false} LinesPrefix(userClose: set<string>, booked: seq<BookedTxn>, i: nat)
    requires i <= |booked|
    ensures PlanLines(userClose, booked[..i]).synth <= PlanLines(userClose, booked).synth
    decreases |booked|
  {
    hide PlanLine;
    if i == |booked| {
      assert booked[..i] == booked;
    } else {
      var n := |booked| - 1;
      LinesPrefix(userClose, booked[..n], i);
      assert booked[..n][..i] == booked[..i];
      LinePlans(userClose, booked[n].meta, booked[n].filled, PlanLines(userClose, booked[..n]));
    }
  }

  lemma {:induction false} LinesBalances(userClose: set<string>, booked: seq<BookedTxn>)
    ensures forall b :: b in PlanLines(userClose, booked).balances ==>
              exists k, l :: MarkedAt(booked, k, l) && BalKey(booked[k].filled[l]) == b
  {
    hide PlanLine;
    if booked != [] {
      var n := |booked| - 1;
      LinesBalances(userClose, booked[..n]);
      var plan := PlanLines(userClose, booked[..n]);
      LinePlans(userClose, booked[n].meta, booked[n].filled, plan);
      forall b | b in PlanLines(userClose, booked).balances
        ensures exists k, l :: MarkedAt(booked, k, l) && BalKey(booked[k].filled[l]) == b
      {
        if b in plan.balances {
          var k, l :| MarkedAt(booked[..n], k, l) && BalKey(booked[..n][k].filled[l]) == b;
          assert MarkedAt(booked, k, l);
        } else {
          var l :| 0 <= l < |booked[n].filled| && Marked(booked[n].filled[l]) && BalKey(booked[n].filled[l]) == b;
          assert MarkedAt(booked, n, l);
        }
      }
    }
  }

  lemma OtherKey(x: Filled, y: Filled)
    requires Marked(x) && Marked(y) && !SamePart(x, y)
    requires '|' !in x.units.value.commodity && '|' !in y.units.value.commodity
    ensures BalKey(x) != BalKey(y)
  {
    if BalKey(x) == BalKey(y) {
      JoinedAlike(x.account, x.units.value.commodity, y.account, y.units.value.commodity);
    }
  }

  /** The first marked leg of an account and commodity gets its zero balance on the next day. */
  lemma FirstMarkedBalanced(dirs: seq<Directive>, booked: seq<BookedTxn>, i: nat, j: nat)
    requires FirstMarked(booked, i, j) && BarlessMarks(booked)
    ensures var fp, meta := booked[i].filled[j], booked[i].meta;
            Balance(meta.(date := meta.date + 1), fp.account, Amount(0.0, fp.units.value.commodity))
            in ExpandClosing(dirs, booked)
  {
    hide PlanLine, PlanLeg, BalKey;
    var userClose, t := UserClose(dirs), booked[i];
    var fp, key := t.filled[j], BalKey(t.filled[j]);
    var before := PlanLines(userClose, booked[..i]);
    var line := PlanLine(userClose, t.meta, t.filled[..j], before);
    LinesBalances(userClose, booked[..i]);
    LinePlans(userClose, t.meta, t.filled[..j], before);
    forall k, l | MarkedAt(booked[..i], k, l) ensures BalKey(booked[..i][k].filled[l]) != key {
      assert MarkedAt(booked, k, l) && Before(k, l, i, j);
      OtherKey(booked[k].filled[l], fp);
    }
    forall l | 0 <= l < j && Marked(t.filled[..j][l]) ensures BalKey(t.filled[..j][l]) != key {
      assert MarkedAt(booked, i, l) && Before(i, l, i, j);
      OtherKey(booked[i].filled[l], fp);
    }
    LegPlans(userClose, t.meta, fp, line);
    LineSnoc(userClose, t.meta, t.filled, j, before);
    LinePrefix(userClose, t.meta, t.filled, before, j + 1);
    LinesSnoc(userClose, booked, i);
    LinesPrefix(userClose, booked, i + 1);
  }

  lemma LineSnoc(userClose: set<string>, meta: Meta, filled: seq<Filled>, j: nat, plan: Plan)
    requires j < |filled|
    ensures PlanLine(userClose, meta, filled[..j + 1], plan)
          == PlanLeg(userClose, meta, filled[j], PlanLine(userClose, meta, filled[..j], plan))
  {
    assert filled[..j + 1][..j] == filled[..j];
  }

  lemma LinesSnoc(userClose: set<string>, booked: seq<BookedTxn>, i: nat)
    requires i < |booked|
    ensures PlanLines(userClose, booked[..i + 1])
          == PlanLine(userClose, booked[i].meta, booked[i].filled, PlanLines(userClose, booked[..i]))
  {
    assert booked[..i + 1][..i] == booked[..i];
  }

  // ----- the closes

  /** The first marked leg of its account. */
  ghost predicate FirstOfAccount(booked: seq<BookedTxn>, i: nat, j: nat) {
    MarkedAt(booked, i, j) &&
    forall k, l | MarkedAt(booked, k, l)
        && Before(k, l, i, j) :: booked[k].filled[l].account != booked[i].filled[j].account
  }

  predicate ClosesAt(synth: seq<Directive>, n: int, a: string) {
    0 <= n < |synth| && synth[n].Close? && synth[n].account == a
  }

  /** The planned closes are one for each planned account, none of them written already. */
  ghost predicate OneClose(userClose: set<string>, plan: Plan) {
    && (forall n | 0 <= n < |plan.synth| && plan.synth[n].Close? ::
          plan.synth[n].account in plan.closes && plan.synth[n].account !in userClose)
    && forall m, n, a | ClosesAt(plan.synth, m, a) && ClosesAt(plan.synth, n, a) :: m == n
  }

  lemma LegCloses(userClose: set<string>, meta: Meta, fp: Filled, plan: Plan)
    requires OneClose(userClose, plan)
    ensures var p := PlanLeg(userClose, meta, fp, plan);
            && OneClose(userClose, p) && plan.synth <= p.synth
            && p.closes == plan.closes + (if Marked(fp) && fp.account !in userClose then {fp.account} else {})
            && (Marked(fp) && fp.account !in userClose && fp.account !in plan.closes ==>
                  p.synth != [] && p.synth[|p.synth| - 1] == CloseAt(meta, fp))
  {
    var p := PlanLeg(userClose, meta, fp, plan);
    forall m, n, a | ClosesAt(p.synth, m, a) && ClosesAt(p.synth, n, a) ensures m == n {
      assert m < |plan.synth| ==> ClosesAt(plan.synth, m, a);
      assert n < |plan.synth| ==> ClosesAt(plan.synth, n, a);
    }
  }

  lemma {:induction false} LineCloses(userClose: set<string>, meta: Meta, filled: seq<Filled>, plan: Plan)
    requires OneClose(userClose, plan)
    ensures var p := PlanLine(userClose, meta, filled, plan);
            && OneClose(userClose, p)
            && forall a | a in p.closes ::
                 a in plan.closes || exists j | 0 <= j < |filled| :: Marked(filled[j]) && filled[j].account == a
  {
    hide OneClose, PlanLeg;
    if filled != [] {
      var n := |filled| - 1;
      LineCloses(userClose, meta, filled[..n], plan);
      LegCloses(userClose, meta, filled[n], PlanLine(userClose, meta, filled[..n], plan));
      assert filled == filled[..n] + [filled[n]];
    }
  }

  lemma {:induction false} LinesClose(userClose: set<string>, booked: seq<BookedTxn>)
    ensures OneClose(userClose, PlanLines(userClose, booked))
    ensures forall a | a in PlanLines(userClose, booked).closes ::
              exists k, l :: MarkedAt(booked, k, l) && booked[k].filled[l].account == a
  {
    hide PlanLine;
    if booked != [] {
      var n := |booked| - 1;
      LinesClose(userClose, booked[..n]);
      var plan := PlanLines(userClose, booked[..n]);
      LineCloses(userClose, booked[n].meta, booked[n].filled, plan);
      forall a | a in PlanLines(userClose, booked).closes
        ensures exists k, l :: MarkedAt(booked, k, l) && booked[k].filled[l].account == a
      {
        if a in plan.closes {
          var k, l :| MarkedAt(booked[..n], k, l) && booked[..n][k].filled[l].account == a;
          assert MarkedAt(booked, k, l);
        } else {
          var l :| 0 <= l < |booked[n].filled| && Marked(booked[n].filled[l]) && booked[n].filled[l].account == a;
          assert MarkedAt(booked, n, l);
        }
      }
    }
  }

  /** The plan before the j-th leg of the i-th line. */
  function PlanBefore(userClose: set<string>, booked: seq<BookedTxn>, i: nat, j: nat): Plan
    requires i < |booked| && j <= |booked[i].filled|
  {
    PlanLine(userClose, booked[i].meta, booked[i].filled[..j], PlanLines(userClose, booked[..i]))
  }

  /** What the leg adds to the plan is in the whole plan. */
  lemma LegStays(userClose: set<string>, booked: seq<BookedTxn>, i: nat, j: nat)
    requires i < |booked| && j < |booked[i].filled|
    ensures PlanLeg(userClose, booked[i].meta, booked[i].filled[j], PlanBefore(userClose, booked, i, j)).synth
            <= PlanLines(userClose, booked).synth
  {
    hide PlanLeg, PlanLine;
    var t, before := booked[i], PlanLines(userClose, booked[..i]);
    LineSnoc(userClose, t.meta, t.filled, j, before);
    LinePrefix(userClose, t.meta, t.filled, before, j + 1);
    LinesSnoc(userClose, booked, i);
    LinesPrefix(userClose, booked, i + 1);
  }

  /**
    The first marked leg of an account that no close is written for closes it on the next day, and nothing
    else added to the stream does.
  */
  lemma FirstMarkedClosed(dirs: seq<Directive>, booked: seq<BookedTxn>, i: nat, j: nat)
    requires FirstOfAccount(booked, i, j)
    requires forall d | d in dirs && d.Close? :: d.account != booked[i].filled[j].account
    ensures var out, a := ExpandClosing(dirs, booked), booked[i].filled[j].account;
            exists n | |dirs| <= n < |out| ::
              && out[n] == Close(booked[i].meta.(date := booked[i].meta.date + 1), a)
              && forall m | |dirs| <= m < |out| && out[m].Close? && out[m].account == a :: m == n
  {
    hide PlanLeg, PlanLine, PlanLines, OneClose;
    var userClose, t, fp := UserClose(dirs), booked[i], booked[i].filled[j];
    var before := PlanBefore(userClose, booked, i, j);
    var first, whole := PlanLines(userClose, booked[..i]), PlanLines(userClose, booked);
    LinesClose(userClose, booked[..i]);
    LineCloses(userClose, t.meta, t.filled[..j], first);
    forall k, l | MarkedAt(booked[..i], k, l) ensures booked[..i][k].filled[l].account != fp.account {
      assert MarkedAt(booked, k, l) && Before(k, l, i, j);
    }
    forall l | 0 <= l < j && Marked(t.filled[..j][l]) ensures t.filled[..j][l].account != fp.account {
      assert MarkedAt(booked, i, l) && Before(i, l, i, j);
    }
    assert fp.account !in before.closes;
    LegCloses(userClose, t.meta, fp, before);
    LegStays(userClose, booked, i, j);
    LinesClose(userClose, booked);
    var n := |PlanLeg(userClose, t.meta, fp, before).synth| - 1;
    OnlyClose(userClose, whole, n, fp.account);
    var out := ExpandClosing(dirs, booked);
    assert forall m | 0 <= m < |whole.synth| :: out[|dirs| + m] == whole.synth[m];
    assert out[|dirs| + n] == CloseAt(t.meta, fp);
    forall m | |dirs| <= m < |out| && out[m].Close? && out[m].account == fp.account ensures m == |dirs| + n {
      assert ClosesAt(whole.synth, m - |dirs|, fp.account);
    }
  }

  lemma OnlyClose(userClose: set<string>, plan: Plan, n: int, a: string)
    requires OneClose(userClose, plan) && ClosesAt(plan.synth, n, a)
    ensures forall m | ClosesAt(plan.synth, m, a) :: m == n
  {
  }

  /** No close is added for an account that a close is written for. */
  lemma NoSecondClose(dirs: seq<Directive>, booked: seq<BookedTxn>, m: nat, d: Directive)
    requires |dirs| <= m < |ExpandClosing(dirs, booked)| && ExpandClosing(dirs, booked)[m].Close?
    requires d in dirs && d.Close? && d.account != ""
    ensures ExpandClosing(dirs, booked)[m].account != d.account
  {
    hide PlanLines;
    LinesClose(UserClose(dirs), booked);
    var plan := PlanLines(UserClose(dirs), booked);
    assert ExpandClosing(dirs, booked)[m] == plan.synth[m - |dirs|];
    assert d.account in UserClose(dirs);
  }

  /** Everything added to the stream is the zero balance or the close of a marked leg, on the next day. */
  lemma {:induction false} LinesAdd(userClose: set<string>, booked: seq<BookedTxn>, d: Directive)
    requires d in PlanLines(userClose, booked).synth
    ensures exists i, j :: MarkedAt(booked, i, j) && AddedFor(d, booked[i].meta, booked[i].filled[j])
  {
    hide PlanLine, AddedFor;
    var n := |booked| - 1;
    var before := PlanLines(userClose, booked[..n]);
    if d in before.synth {
      LinesAdd(userClose, booked[..n], d);
      var i, j :| MarkedAt(booked[..n], i, j) && AddedFor(d, booked[..n][i].meta, booked[..n][i].filled[j]);
      assert MarkedAt(booked, i, j);
    } else {
      var j := LineAdds(userClose, booked[n].meta, booked[n].filled, before, d);
      assert MarkedAt(booked, n, j);
    }
  }

  predicate AddedFor(d: Directive, meta: Meta, fp: Filled)
    requires fp.units.Some?
  {
    || d == Balance(meta.(date := meta.date + 1), fp.account, Amount(0.0, fp.units.value.commodity))
    || d == Close(meta.(date := meta.date + 1), fp.account)
  }

  lemma {:induction false} LineAdds(userClose: set<string>, meta: Meta, filled: seq<Filled>, plan: Plan, d: Directive)
      returns (j: nat)
    requires d in PlanLine(userClose, meta, filled, plan).synth && d !in plan.synth
    ensures j < |filled| && Marked(filled[j]) && AddedFor(d, meta, filled[j])
  {
    var n := |filled| - 1;
    if d in PlanLine(userClose, meta, filled[..n], plan).synth {
      j := LineAdds(userClose, meta, filled[..n], plan, d);
    } else {
      j := n;
      LegPlans(userClose, meta, filled[n], PlanLine(userClose, meta, filled[..n], plan));
    }
  }

  lemma ClosingAdds(dirs: seq<Directive>, booked: seq<BookedTxn>, d: Directive)
    requires d in ExpandClosing(dirs, booked) && d !in dirs
    ensures exists i, j :: MarkedAt(booked, i, j) && AddedFor(d, booked[i].meta, booked[i].filled[j])
  {
    hide PlanLines, AddedFor;
    LinesAdd(UserClose(dirs), booked, d);
  }

  /** A marked leg of the journal comes from a marked posting of the stream. */
  lemma MarksArePosted(cfg: Config, dirs: seq<Directive>, i: nat, j: nat)
    requires MarkedAt(Run(cfg, EMPTY, SortDirectives(dirs)).txns, i, j)
    ensures HasClosing(dirs)
  {
    hide Run, Sort, HasClosing;
    SortElements(dirs, DirectiveLess);
    if !HasClosing(dirs) {
      forall d | d in SortDirectives(dirs) && d.Transaction? ensures !SomeMarked(d.postings) {
        assert d in dirs;
        NoClosing(dirs, d);
      }
      RunMarks(cfg, SortDirectives(dirs));
    }
  }

  /** A stream without closing metadata is booked as it is. */
  lemma NothingMarked(cfg: Config, dirs: seq<Directive>)
    requires forall i, j | 0 <= i < |dirs| && dirs[i].Transaction? && 0 <= j < |dirs[i].postings| ::
               !dirs[i].postings[j].closing
    ensures ClosingStream(cfg, dirs) == dirs
  {
    hide Run, AutoInterest.ExpandAutoInterest;
  }

  /** With closing metadata, every balance on an interest account, the added ones too, is padded. */
  lemma ClosingPadsInterest(cfg: Config, dirs: seq<Directive>, d: Directive, i: nat)
    requires d in dirs && d.Transaction? && SomeMarked(d.postings)
    requires i < |ClosingStream(cfg, dirs)| && ClosingStream(cfg, dirs)[i].Balance?
    requires InterestPads.InterestAccount(ExpandClosing(dirs, Run(cfg, EMPTY, SortDirectives(dirs)).txns),
                                          ClosingStream(cfg, dirs)[i].account)
    ensures InterestPads.PaddedAt(ClosingStream(cfg, dirs), i)
  {
    hide Run, AutoInterest.ExpandAutoInterest, ExpandClosing, HasClosing, SomeMarked, InterestPads.PaddedAt,
      InterestPads.InterestAccount;
    NoClosing(dirs, d);
    InterestPads.BalancesArePadded(ExpandClosing(dirs, Run(cfg, EMPTY, SortDirectives(dirs)).txns), i);
  }

  // ----- an error-free closing

  /**
    When BookWithClosing ends without an error, each first marked account and commodity is within
    tolerance of zero at the balance it gets on the next day.
  */
  lemma ClosedToZero(cfg: Config, dirs: seq<Directive>, i: nat, j: nat)
    requires var booked := Run(cfg, EMPTY, SortDirectives(dirs)).txns; FirstMarked(booked, i, j) && BarlessMarks(booked)
    requires ErrorFree(Run(cfg, EMPTY, SortDirectives(ClosingStream(cfg, dirs))).diags)
    ensures var t := Run(cfg, EMPTY, SortDirectives(dirs)).txns[i];
            var ds := SortDirectives(ClosingStream(cfg, dirs));
            var a, comm := t.filled[j].account, t.filled[j].units.value.commodity;
            exists n | 0 <= n < |ds| ::
              && ds[n] == Balance(t.meta.(date := t.meta.date + 1), a, Amount(0.0, comm))
              && Abs(BalOf(Run(cfg, EMPTY, ds[..n + 1]).bal, Key(a, comm))) <= Tol(cfg, comm)
  {
    hide Run, ExpandClosing, AutoInterest.ExpandAutoInterest, Sort, ErrorFree, HasClosing, BarlessMarks;
    var booked := Run(cfg, EMPTY, SortDirectives(dirs)).txns;
    MarksArePosted(cfg, dirs, i, j);
    var zero := ZeroAt(booked[i].meta, booked[i].filled[j]);
    FirstMarkedBalanced(dirs, booked, i, j);
    AutoInterest.ExpandKeeps(ExpandClosing(dirs, booked));
    SortElements(ClosingStream(cfg, dirs), DirectiveLess);
    var ds := SortDirectives(ClosingStream(cfg, dirs));
    assert zero in ds;
    var n :| 0 <= n < |ds| && ds[n] == zero;
    BalancesHold(cfg, ds, n);
  }

  /**
    And when it ends without an error, no transaction posts to the account of a marked leg later than the
    day after the leg, when the stream itself does not close the account.
  */
  lemma NothingPostedAfterMarked(cfg: Config, dirs: seq<Directive>, i: nat, j: nat, t: Directive, p: nat)
    requires var booked := Run(cfg, EMPTY, SortDirectives(dirs)).txns;
             && FirstOfAccount(booked, i, j)
             && (forall d | d in dirs && d.Close? :: d.account != booked[i].filled[j].account)
             && t.Transaction? && p < |t.postings| && t.postings[p].account == booked[i].filled[j].account
    requires t in ClosingStream(cfg, dirs) && LinesComparable(ClosingStream(cfg, dirs))
    requires ErrorFree(Run(cfg, EMPTY, SortDirectives(ClosingStream(cfg, dirs))).diags)
    ensures t.meta.date <= Run(cfg, EMPTY, SortDirectives(dirs)).txns[i].meta.date + 1
  {
    hide Run, ExpandClosing, AutoInterest.ExpandAutoInterest, Sort, ErrorFree, FirstOfAccount, LinesComparable;
    var booked, stream := Run(cfg, EMPTY, SortDirectives(dirs)).txns, ClosingStream(cfg, dirs);
    FirstIsMarked(booked, i, j);
    MarksArePosted(cfg, dirs, i, j);
    FirstMarkedClosed(dirs, booked, i, j);
    var expanded, a := ExpandClosing(dirs, booked), booked[i].filled[j].account;
    var close := Close(booked[i].meta.(date := booked[i].meta.date + 1), a);
    var n :| 0 <= n < |expanded| && expanded[n] == close;
    AutoInterest.ExpandKeeps(expanded);
    var ds := SortDirectives(stream);
    SortElements(stream, DirectiveLess);
    SortedInOrder(stream);
    assert t in ds && close in ds;
    var x :| 0 <= x < |ds| && ds[x] == t;
    var y :| 0 <= y < |ds| && ds[y] == close;
    PostingNotAfterClose(cfg, ds, x, p);
    assert IsCloseOf(ds[y], a);
  }

  lemma FirstIsMarked(booked: seq<BookedTxn>, i: nat, j: nat)
    requires FirstOfAccount(booked, i, j)
    ensures MarkedAt(booked, i, j)
  {
  }

  lemma SameMembersInTime(p: seq<Directive>, q: seq<Directive>)
    requires (forall d | d in q :: d in p) && (forall d | d in p :: d in q) && PadsInTime(p)
    ensures PadsInTime(q)
  {
    forall i | 0 <= i < |q| && q[i].Pad? ensures !ClosedBefore(q, q[i].account, q[i].meta.date) {
      assert q[i] in p;
      var k :| 0 <= k < |p| && p[k] == q[i];
      forall c | 0 <= c < |q| && IsCloseOf(q[c], q[i].account) ensures q[c].meta.date >= q[i].meta.date {
        assert q[c] in p;
        var n :| 0 <= n < |p| && p[n] == q[c];
        assert IsCloseOf(p[n], p[k].account);
      }
    }
  }

  /**
    And when it ends without an error nothing in its journal is dated after a close of the account,
    synthetic or written, with one exception: the first leg of the line of a pad that is itself
    dated after the close. The exception occurs exactly when such a pad fires, and never when the
    stream has none.
  */
  lemma NothingPostedAfterClose(cfg: Config, dirs: seq<Directive>)
    requires LinesComparable(ClosingStream(cfg, dirs))
    requires ErrorFree(Run(cfg, EMPTY, SortDirectives(ClosingStream(cfg, dirs))).diags)
    ensures var ds := SortDirectives(ClosingStream(cfg, dirs));
            var txns := Run(cfg, EMPTY, ds).txns;
            && (forall m, l | LegAfterClose(ds, txns, m, l) :: IsPadLine(txns[m]) && l == 0)
            && ((exists m, l :: LegAfterClose(ds, txns, m, l)) <==> exists i | 0 <= i < |ds| :: PadsClosed(cfg, ds, i))
            && (PadsInTime(ClosingStream(cfg, dirs)) ==> forall m, l :: !LegAfterClose(ds, txns, m, l))
  {
    hide Run, ClosingStream, Sort, ErrorFree, LinesComparable, LegAfterClose, PadsClosed, PadsInTime;
    var stream := ClosingStream(cfg, dirs);
    var ds := SortDirectives(stream);
    SortedInOrder(stream);
    SortElements(stream, DirectiveLess);
    LegsAfterCloseExactly(cfg, ds);
    if PadsInTime(stream) {
      SameMembersInTime(stream, ds);
      forall m, l ensures !LegAfterClose(ds, Run(cfg, EMPTY, ds).txns, m, l) {
        NothingAfterClose(cfg, ds, m, l);
      }
    }
  }

  // ----- the program's loops

  method PlanClosing(dirs: seq<Directive>, booked: seq<BookedTxn>) returns (out: seq<Directive>)
    ensures out == ExpandClosing(dirs, booked)
  {
    hide PlanLeg;
    var userClose := set d | d in dirs && d.Close? && d.account != "" :: d.account;
    var plan := Plan({}, {}, []);
    for i := 0 to |booked|
      invariant plan == PlanLines(userClose, booked[..i])
    {
      LinesSnoc(userClose, booked, i);
      var t := booked[i];
      ghost var before := plan;
      for j := 0 to |t.filled|
        invariant plan == PlanLine(userClose, t.meta, t.filled[..j], before)
      {
        LineSnoc(userClose, t.meta, t.filled, j, before);
        plan := PlanMarked(userClose, t.meta, t.filled[j], plan);
      }
      assert t.filled[..|t.filled|] == t.filled;
    }
    assert booked[..|booked|] == booked;
    out := dirs + plan.synth;
  }

  method PlanMarked(userClose: set<string>, meta: Meta, fp: Filled, plan: Plan) returns (p: Plan)
    ensures p == PlanLeg(userClose, meta, fp, plan)
  {
    p := plan;
    if !fp.closing || fp.units.None? || fp.units.value.commodity == "" { return; }
    if BalKey(fp) !in p.balances {
      p := p.(balances := p.balances + {BalKey(fp)}, synth := p.synth + [ZeroAt(meta, fp)]);
    }
    if fp.account in userClose { return; }
    if fp.account in p.closes { return; }
    p := p.(closes := p.closes + {fp.account}, synth := p.synth + [CloseAt(meta, fp)]);
  }

  /** Books once without closing metadata; otherwise plans from a probe run and books again. */
  method BookWithClosing(cfg: Config, dirs: seq<Directive>) returns (e: EngineLoops.Engine, out: seq<Directive>)
    ensures fresh(e) && out == ClosingStream(cfg, dirs)
    ensures e.S() == Run(cfg, EMPTY, SortDirectives(out))
  {
    hide Run, ExpandClosing, AutoInterest.ExpandAutoInterest;
    e := new EngineLoops.Engine(cfg);
    out := dirs;
    if !HasClosing(dirs) {
      e.Book(dirs);
      return;
    }
    var probe := new EngineLoops.Engine(cfg);
    probe.Book(dirs);
    out := PlanClosing(dirs, probe.txns);
    out := AutoInterest.Expand(out);
    e.Book(out);
  }
}
