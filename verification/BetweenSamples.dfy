/** Net worth between the samples of the series: what days without one can change. */
module BetweenSamples {
  import opened Ast
  import opened Sorting
  import opened Ordering
  import opened Booking
  import opened Journal
  import opened Sums
  import opened NetWorthSeries
  import Pads
  import Prices
  import Tolerances

  ghost predicate SameHeld(b1: Balances, b2: Balances) {
    forall k: Key | IsNetWorth(k.account) :: BalOf(b1, k) == BalOf(b2, k)
  }

  lemma {:induction false} PostUntouched(bal: Balances, filled: seq<Filled>)
    requires forall i | 0 <= i < |filled| :: !IsNetWorth(filled[i].account)
    ensures SameHeld(PostAll(bal, filled), bal)
  {
    hide IsNetWorth;
    if filled != [] { PostUntouched(bal, filled[..|filled| - 1]); }
  }

  lemma TxnUntouched(cfg: Config, s: State, t: Directive)
    requires t.Transaction? && !Touches(t)
    ensures SameHeld(BookTxn(cfg, s, t).bal, s.bal)
  {
    hide PlanAll, Prepare, Move, PostAll, IsNetWorth;
    PrepareSome(cfg, s, t);
    if Prepare(cfg, s, t).Some? {
      PreparedOnAccounts(cfg, s, t);
      var filled := Prepare(cfg, s, t).value.filled;
      forall i | 0 <= i < |filled| ensures !IsNetWorth(filled[i].account) {
        assert HasAccount(t.postings, filled[i].account);
        var j :| 0 <= j < |t.postings| && t.postings[j].account == filled[i].account;
      }
      PostUntouched(s.bal, filled);
    }
  }

  // ----- pads that drain counted accounts

  /** The balance fires a pad that takes from a counted account into another. */
  predicate Drains(cfg: Config, s: State, d: Directive) {
    d.Balance? && Fires(cfg, s, d) && IsNetWorth(s.pad[d.account].fromAccount) && !IsNetWorth(d.account)
  }

  /** What the pads that fire when ds is booked from s drain, at the market of a day. */
  ghost function Drained(l: Ledger, s: State, ds: seq<Directive>, at: Date): real {
    if ds == [] then 0.0
    else
      var ds', d := ds[..|ds| - 1], ds[|ds| - 1];
      var s' := Run(FRESH, s, ds');
      Drained(l, s, ds', at)
      + if Drains(FRESH, s', d) then MarketValue(l, d.amount.commodity, Shortfall(s', d), at) else 0.0
  }

  /** The directives of a day, in booking order. */
  ghost function DayOf(dirs: seq<Directive>, day: Date): seq<Directive> {
    SortDirectives(Filter(dirs, On(day)))
  }

  /** What the pads that fire on a day drain, at the market of the day before. */
  ghost function DrainedOn(l: Ledger, day: Date): real
    requires day > 0
  {
    Drained(l, AsOf(l.dirs, day - 1), DayOf(l.dirs, day), day - 1)
  }

  /** No pad that fires on the day drains a counted account. */
  ghost predicate DrainsNothing(dirs: seq<Directive>, day: Date)
    requires day > 0
  {
    NoDrain(AsOf(dirs, day - 1), DayOf(dirs, day))
  }

  ghost predicate NoDrain(s: State, ds: seq<Directive>) {
    ds != [] ==>
      NoDrain(s, ds[..|ds| - 1]) && !Drains(FRESH, Run(FRESH, s, ds[..|ds| - 1]), ds[|ds| - 1])
  }

  lemma {:induction false} NoDrainZero(l: Ledger, s: State, ds: seq<Directive>, at: Date)
    requires NoDrain(s, ds)
    ensures Drained(l, s, ds, at) == 0.0
  {
    hide Drains, Run, MarketValue;
    if ds != [] { NoDrainZero(l, s, ds[..|ds| - 1], at); }
  }

  /** The counted balances after n of k is taken out. */
  ghost predicate TakenOut(b1: Balances, b2: Balances, k: Key, n: real) {
    forall j: Key | IsNetWorth(j.account) :: BalOf(b2, j) == BalOf(b1, j) - if j == k then n else 0.0
  }

  lemma DrainTakes(cfg: Config, s: State, b: Directive)
    requires b.Balance? && !IsNetWorth(b.account) && Drains(cfg, s, b)
    ensures TakenOut(s.bal, BookBalance(cfg, s, b).bal, Key(s.pad[b.account].fromAccount, b.amount.commodity),
                     Shortfall(s, b))
  {
    hide IsNetWorth, BookBalance, Holds, CheckAccount;
    BalanceShape(cfg, s, b);
  }

  lemma BalanceUntouched(cfg: Config, s: State, b: Directive)
    requires b.Balance? && !IsNetWorth(b.account) && !Drains(cfg, s, b)
    ensures SameHeld(BookBalance(cfg, s, b).bal, s.bal)
  {
    hide IsNetWorth, BookBalance, Holds, CheckAccount;
    BalanceShape(cfg, s, b);
  }

  /** A directive that touches no counted account moves counted balances only by a draining pad. */
  lemma StepUntouched(s: State, d: Directive)
    requires !Touches(d) && !Drains(FRESH, s, d)
    ensures SameHeld(Apply(FRESH, s, d).bal, s.bal)
  {
    hide IsNetWorth, BookTxn, BookBalance, Holds, Drains;
    match d
    case Transaction(_, _, _) => TxnUntouched(FRESH, s, d);
    case Balance(_, _, _) => BalanceUntouched(FRESH, s, d);
    case _ =>
  }

  ghost function ValueOf(l: Ledger, bal: Balances, at: Date): Key -> real {
    (k: Key) => MarketValue(l, k.commodity, BalOf(bal, k), at)
  }

  /** Worth as a sum over any counted keys that include the held ones. */
  lemma WorthOver(l: Ledger, bal: Balances, at: Date, ks: set<Key>)
    requires Held(bal) <= ks && forall k | k in ks :: IsNetWorth(k.account)
    ensures Worth(l, bal, at) == SumOver(ks, ValueOf(l, bal, at))
  {
    hide IsNetWorth, Prices.Rate;
    var f := (k: Key) => MarketValue(l, k.commodity, BalOf(bal, k), at);
    SumSame(Held(bal), f, ValueOf(l, bal, at));
    SumDrop(Held(bal), ks, ValueOf(l, bal, at));
  }

  /** Worth goes down by the market value of what is taken out. */
  lemma WorthTaken(l: Ledger, b1: Balances, b2: Balances, k: Key, n: real, at: Date)
    requires IsNetWorth(k.account) && TakenOut(b1, b2, k, n)
    ensures Worth(l, b2, at) == Worth(l, b1, at) - MarketValue(l, k.commodity, n, at)
  {
    hide Prices.Rate, Worth, IsNetWorth;
    var ks := Held(b1) + Held(b2) + {k};
    WorthOver(l, b1, at, ks);
    WorthOver(l, b2, at, ks);
    forall j | j in ks && j != k ensures ValueOf(l, b1, at)(j) == ValueOf(l, b2, at)(j) {
      assert BalOf(b2, j) == BalOf(b1, j);
    }
    SumChange(ks, ValueOf(l, b1, at), ValueOf(l, b2, at), k);
    ValueTaken(l, k.commodity, BalOf(b1, k), n, at);
  }

  lemma ValueTaken(l: Ledger, comm: string, units: real, n: real, at: Date)
    ensures MarketValue(l, comm, units - n, at) == MarketValue(l, comm, units, at) - MarketValue(l, comm, n, at)
  {
    hide Prices.Rate;
  }

  lemma SameHeldWorth(l: Ledger, b1: Balances, b2: Balances, at: Date)
    requires SameHeld(b1, b2)
    ensures Worth(l, b1, at) == Worth(l, b2, at)
  {
    hide Worth, MarketValue, IsNetWorth;
    var ks := Held(b1) + Held(b2);
    WorthOver(l, b1, at, ks);
    WorthOver(l, b2, at, ks);
    SumSame(ks, ValueOf(l, b1, at), ValueOf(l, b2, at));
  }

  /** Directives that touch no counted account change the worth by what their pads drain. */
  lemma {:induction false} UntouchedRunWorth(l: Ledger, s: State, ds: seq<Directive>, at: Date)
    requires forall d | d in ds :: !Touches(d)
    ensures Worth(l, Run(FRESH, s, ds).bal, at) == Worth(l, s.bal, at) - Drained(l, s, ds, at)
    ensures NoDrain(s, ds) ==> SameHeld(Run(FRESH, s, ds).bal, s.bal)
  {
    hide Apply, IsNetWorth, Touches, Worth, Drains, MarketValue;
    if ds != [] {
      var ds', d := ds[..|ds| - 1], ds[|ds| - 1];
      assert d in ds;
      UntouchedRunWorth(l, s, ds', at);
      StepWorth(l, Run(FRESH, s, ds'), d, at);
    }
  }

  lemma StepWorth(l: Ledger, s: State, d: Directive, at: Date)
    requires !Touches(d)
    ensures var s' := Apply(FRESH, s, d);
            if Drains(FRESH, s, d)
            then Worth(l, s'.bal, at) == Worth(l, s.bal, at) - MarketValue(l, d.amount.commodity, Shortfall(s, d), at)
            else SameHeld(s'.bal, s.bal) && Worth(l, s'.bal, at) == Worth(l, s.bal, at)
  {
    hide Worth, MarketValue, IsNetWorth, BookBalance, BookTxn, Holds;
    if Drains(FRESH, s, d) {
      DrainTakes(FRESH, s, d);
      WorthTaken(l, s.bal, BookBalance(FRESH, s, d).bal, Key(s.pad[d.account].fromAccount, d.amount.commodity),
                 Shortfall(s, d), at);
    } else {
      StepUntouched(s, d);
      SameHeldWorth(l, Apply(FRESH, s, d).bal, s.bal, at);
    }
  }

  lemma DayWorth(l: Ledger, day: Date)
    requires day > 0 && forall d | d in l.dirs && d.meta.date == day :: !Touches(d)
    ensures Worth(l, AsOf(l.dirs, day).bal, day - 1) == NetWorth(l, day - 1) - DrainedOn(l, day)
  {
    hide Run, Sort, Touches, Worth, Drained;
    AsOfNext(l.dirs, day);
    SortElements(Filter(l.dirs, On(day)), DirectiveLess);
    FilterElements(l.dirs, On(day));
    forall d | d in DayOf(l.dirs, day) ensures !Touches(d) {
      assert d in l.dirs && d.meta.date == day;
    }
    UntouchedRunWorth(l, AsOf(l.dirs, day - 1), DayOf(l.dirs, day), day - 1);
  }

  // ----- market values between price days

  lemma {:induction false} LatestUnpriced(pts: seq<Prices.Point>, day: Date)
    requires day > 0 && forall i | 0 <= i < |pts| :: pts[i].date != day
    ensures Prices.Latest(pts, day) == Prices.Latest(pts, day - 1)
  {
    if pts != [] { LatestUnpriced(pts[..|pts| - 1], day); }
  }

  lemma DirectUnpriced(s: Prices.Series, x: string, y: string, day: Date)
    requires day > 0 && !PricedOn(s, day) && AllListed(s)
    ensures Prices.DirectOrInverse(s, x, y, day) == Prices.DirectOrInverse(s, x, y, day - 1)
  {
    hide Prices.Latest, Listed;
    LatestUnpriced(Prices.PointsOf(s, Prices.PairKey(x, y)), day);
    LatestUnpriced(Prices.PointsOf(s, Prices.PairKey(y, x)), day);
  }

  lemma RateUnpriced(s: Prices.Series, x: string, y: string, day: Date)
    requires day > 0 && !PricedOn(s, day) && AllListed(s) && x != y
    ensures Prices.Rate(s, x, y, day) == Prices.Rate(s, x, y, day - 1)
  {
    hide Prices.DirectOrInverse, PricedOn, AllListed, Prices.Commodities;
    DirectUnpriced(s, x, y, day);
    forall m ensures Prices.Links(s, x, m, y, day) == Prices.Links(s, x, m, y, day - 1) {
      DirectUnpriced(s, x, m, day);
      DirectUnpriced(s, m, y, day);
    }
    assert Prices.Middles(s, x, y, day) == Prices.Middles(s, x, y, day - 1);
    forall m | Prices.Links(s, x, m, y, day) ensures Prices.Hop(s, x, m, y, day) == Prices.Hop(s, x, m, y, day - 1) {
      DirectUnpriced(s, x, m, day);
      DirectUnpriced(s, m, y, day);
    }
  }

  lemma WorthUnpriced(l: Ledger, bal: Balances, day: Date)
    requires day > 0 && (Held(bal) != {} ==> !PricedOn(l.prices, day)) && AllListed(l.prices)
    ensures Worth(l, bal, day) == Worth(l, bal, day - 1)
  {
    hide IsNetWorth, PricedOn, AllListed, MarketValue;
    var f, g := (k: Key) => MarketValue(l, k.commodity, BalOf(bal, k), day),
      (k: Key) => MarketValue(l, k.commodity, BalOf(bal, k), day - 1);
    forall k | k in Held(bal) ensures f(k) == g(k) {
      ValueUnpriced(l, k.commodity, BalOf(bal, k), day);
    }
    SumSame(Held(bal), f, g);
  }

  lemma ValueUnpriced(l: Ledger, comm: string, units: real, day: Date)
    requires day > 0 && !PricedOn(l.prices, day) && AllListed(l.prices)
    ensures MarketValue(l, comm, units, day) == MarketValue(l, comm, units, day - 1)
  {
    hide Prices.Rate, PricedOn, AllListed;
    if comm != l.op { RateUnpriced(l.prices, comm, l.op, day); }
  }

  /**
    On a day of the range that has no sample, the re-booked net worth changes only by what late pads
    drain: they take from a counted account into another, at a balance the day's sample rule skips.
  */
  lemma UnsampledDrains(l: Ledger, r: Range, days: seq<Date>, day: Date)
    requires Calendar(l, r, days) && AllListed(l.prices) && day > 0 && InRange(r, day)
    requires !Sampled(l, r, days, day)
    ensures NetWorth(l, day) == NetWorth(l, day - 1) - DrainedOn(l, day)
  {
    hide AsOf, Worth, Walk, PricedOn, AllListed, Held, InRange, Touches, Drained;
    var s := AsOf(l.dirs, day);
    if i :| 0 <= i < |days| && days[i] == day {
      assert days[..|days|] == days;
      WantedIsHit(l, r, day);
      assert !Hit(l, r, day, s) by { if Hit(l, r, day, s) { SampledExactly(l, r, days, |days|, i); } }
    } else {
      assert forall j | 0 <= j < |l.dirs| :: l.dirs[j].meta.date in days;
      assert !PriceDay(l, day);
    }
    DayWorth(l, day);
    WorthUnpriced(l, s.bal, day);
  }

  /** The series misses nothing on a day exactly when what the day's pads drain has no value: above all
      when none of them drains a counted account. */
  lemma UnsampledUnchanged(l: Ledger, r: Range, days: seq<Date>, day: Date)
    requires Calendar(l, r, days) && AllListed(l.prices) && day > 0 && InRange(r, day)
    requires !Sampled(l, r, days, day)
    ensures NetWorth(l, day) == NetWorth(l, day - 1) <==> DrainedOn(l, day) == 0.0
    ensures DrainsNothing(l.dirs, day) ==> NetWorth(l, day) == NetWorth(l, day - 1)
  {
    hide NetWorth, AsOf, Calendar, AllListed, InRange, Sampled, Drained, NoDrain;
    UnsampledDrains(l, r, days, day);
    if DrainsNothing(l.dirs, day) {
      NoDrainZero(l, AsOf(l.dirs, day - 1), DayOf(l.dirs, day), day - 1);
    }
  }

  /** So net worth is the step function of the samples: constant from one sample to the next. */
  lemma {:induction false} ConstantBetweenSamples(l: Ledger, r: Range, days: seq<Date>, a: Date, b: Date)
    requires Calendar(l, r, days) && AllListed(l.prices) && a <= b
    requires forall day | a < day <= b :: InRange(r, day) && !Sampled(l, r, days, day) && DrainsNothing(l.dirs, day)
    ensures NetWorth(l, b) == NetWorth(l, a)
    decreases b
  {
    hide Calendar, NetWorth, Sampled, InRange, DrainsNothing, AllListed;
    if a < b {
      UnsampledUnchanged(l, r, days, b);
      ConstantBetweenSamples(l, r, days, a, b - 1);
    }
  }

  // ----- streams whose pads drain nothing

  /** Every pad that takes from a counted account pads a counted account. */
  predicate PadsStayCounted(dirs: seq<Directive>) {
    forall d | d in dirs && d.Pad? && IsNetWorth(d.fromAccount) :: IsNetWorth(d.account)
  }

  lemma PadBehind(ds: seq<Directive>, account: string)
    requires account in Run(FRESH, EMPTY, ds).pad
    ensures var pad := Run(FRESH, EMPTY, ds).pad[account];
            exists e | e in ds :: e.Pad? && e.account == account && pad == PendingPad(e.meta, e.fromAccount)
  {
    hide Run;
    var q := Pads.PendingSince(FRESH, ds, account);
    assert ds[q] in ds;
  }

  lemma {:induction false} CountedNoDrain(x: seq<Directive>, ds: seq<Directive>)
    requires PadsStayCounted(x + ds)
    ensures NoDrain(Run(FRESH, EMPTY, x), ds)
  {
    hide Run, IsNetWorth;
    if ds != [] {
      var ds', d := ds[..|ds| - 1], ds[|ds| - 1];
      assert forall e | e in x + ds' :: e in x + ds;
      CountedNoDrain(x, ds');
      RunConcat(FRESH, EMPTY, x, ds');
      if d.Balance? && d.account in Run(FRESH, EMPTY, x + ds').pad {
        PadBehind(x + ds', d.account);
      }
    }
  }

  lemma PadsStayCountedDrainNothing(dirs: seq<Directive>, day: Date)
    requires PadsStayCounted(dirs) && day > 0
    ensures DrainsNothing(dirs, day)
  {
    hide Run, Sort, NoDrain, IsNetWorth;
    var x, ds := SortDirectives(Filter(dirs, OnOrBefore(day - 1))), DayOf(dirs, day);
    SortElements(Filter(dirs, On(day)), DirectiveLess);
    FilterElements(dirs, On(day));
    SortElements(Filter(dirs, OnOrBefore(day - 1)), DirectiveLess);
    FilterElements(dirs, OnOrBefore(day - 1));
    assert forall d | d in x + ds :: d in dirs;
    CountedNoDrain(x, ds);
  }

  /** Expanding pads adds transactions only. */
  lemma {:induction false} SynthTransactions(cfg: Config, s: State, ds: seq<Directive>)
    ensures forall d | d in Pads.Synth(cfg, s, ds) :: d.Transaction?
  {
    hide Run, Pads.LateFire;
    if ds != [] { SynthTransactions(cfg, s, ds[..|ds| - 1]); }
  }

  /** A loaded ledger, whatever its tolerances: if the pads as written stay among counted accounts, the
      samples are all of its net worth. */
  lemma LoadedIsStepFunction(
      cfg: Config, written: seq<Directive>, l: Ledger, r: Range, days: seq<Date>, a: Date, b: Date)
    requires l.dirs == Pads.ExpandPads(cfg, written) && PadsStayCounted(written)
    requires Calendar(l, r, days) && AllListed(l.prices) && a <= b
    requires forall day | a < day <= b :: InRange(r, day) && !Sampled(l, r, days, day)
    ensures NetWorth(l, b) == NetWorth(l, a)
  {
    hide Calendar, NetWorth, Sampled, InRange, DrainsNothing, AllListed, IsNetWorth, Sort, Pads.Synth;
    SynthTransactions(cfg, EMPTY, SortDirectives(written));
    assert PadsStayCounted(l.dirs);
    forall day | a < day <= b ensures DrainsNothing(l.dirs, day) {
      PadsStayCountedDrainNothing(l.dirs, day);
    }
    ConstantBetweenSamples(l, r, days, a, b);
  }

  /** A stream in which no pad fires later than its own day. */
  ghost predicate PadsOnTime(dirs: seq<Directive>) {
    Pads.Synth(FRESH, EMPTY, SortDirectives(dirs)) == []
  }

  /** Pads on time drain nothing on a day that touches no counted account. */
  lemma OnTimeDrainsNothing(dirs: seq<Directive>, day: Date)
    requires day > 0 && PadsOnTime(dirs) && forall d | d in dirs && d.meta.date == day :: !Touches(d)
    ensures DrainsNothing(dirs, day)
  {
    hide Run, Sort, Touches, Pads.Synth, NoDrain;
    var x, ds := SortDirectives(Filter(dirs, OnOrBefore(day - 1))), DayOf(dirs, day);
    SplitOffDay(dirs, day);
    SortByDay(dirs, day);
    OnTimeParts(x, ds, SortDirectives(Filter(dirs, NotOnOrBefore(day))));
    SortElements(Filter(dirs, On(day)), DirectiveLess);
    FilterElements(dirs, On(day));
    SortElements(Filter(dirs, OnOrBefore(day - 1)), DirectiveLess);
    FilterElements(dirs, OnOrBefore(day - 1));
    OnTimeNoDrain(x, ds, day);
  }

  lemma OnTimeParts(x: seq<Directive>, ds: seq<Directive>, later: seq<Directive>)
    requires Pads.Synth(FRESH, EMPTY, x + ds + later) == []
    ensures Pads.Synth(FRESH, Run(FRESH, EMPTY, x), ds) == []
  {
    hide Run, Pads.Synth;
    Pads.SynthConcat(FRESH, EMPTY, x + ds, later);
    Pads.SynthConcat(FRESH, EMPTY, x, ds);
  }

  lemma {:induction false} OnTimeNoDrain(x: seq<Directive>, ds: seq<Directive>, day: Date)
    requires forall d | d in ds :: !Touches(d) && d.meta.date == day
    requires forall d | d in x :: d.meta.date < day
    requires Pads.Synth(FRESH, Run(FRESH, EMPTY, x), ds) == []
    ensures NoDrain(Run(FRESH, EMPTY, x), ds)
  {
    hide Run, IsNetWorth, Holds;
    if ds != [] {
      var ds', d := ds[..|ds| - 1], ds[|ds| - 1];
      OnTimeNoDrain(x, ds', day);
      RunConcat(FRESH, EMPTY, x, ds');
      assert d in ds && forall e | e in x + ds' :: e in x || e in ds;
      if d.Balance? && d.account in Run(FRESH, EMPTY, x + ds').pad {
        PadBehind(x + ds', d.account);
      }
    }
  }

  /**
    Loading expands pads under the ledger's own tolerances, while the series books under the
    default one. The expanded stream even has its pads on time when the two agree on every commodity
    the stream names.
  */
  lemma ExpandedPadsOnTime(cfg: Config, dirs: seq<Directive>)
    requires Pads.PadsApart(dirs) && LinesComparable(Pads.ExpandPads(cfg, dirs))
    requires Tolerances.AllAgree(cfg, FRESH, dirs)
    ensures PadsOnTime(Pads.ExpandPads(cfg, dirs))
  {
    hide Pads.PadsApart, Pads.ExpandPads, LinesComparable, Tolerances.AllAgree;
    Tolerances.ExpandSame(cfg, FRESH, dirs);
    Pads.ExpandPadsPreserves(FRESH, dirs);
  }

  // ----- a looser tolerance at loading leaves a pad late

  const LOOSE := Config(Some(DEFAULT_TOLERANCE), map["USD" := 0.01])
  const CASH := "Assets:Cash"
  const OPENING := "Equity:X"
  const PAD_FROM_CASH := Pad(Day(1), OPENING, CASH)
  const SMALL_BALANCE := Balance(Day(3), OPENING, Amount(0.005, "USD"))
  const LOADED := [PAD_FROM_CASH, SMALL_BALANCE]
  const PENDING := EMPTY.(pad := map[OPENING := PendingPad(Day(1), CASH)])

  lemma CountedAccounts()
    ensures IsNetWorth(CASH) && !IsNetWorth(OPENING)
  {
    assert CASH[..7] == "Assets:";
    assert OPENING[0] == 'E';
  }

  lemma PadStaysPending()
    ensures Apply(FRESH, EMPTY, PAD_FROM_CASH) == PENDING && Apply(LOOSE, EMPTY, PAD_FROM_CASH) == PENDING
    ensures Pads.LateTxn(LOOSE, PENDING, SMALL_BALANCE) == []
    ensures Pads.LateTxn(FRESH, PENDING, SMALL_BALANCE) == [Pads.PadTxn(PENDING.pad[OPENING], SMALL_BALANCE, 0.005)]
  {
    assert Shortfall(PENDING, SMALL_BALANCE) == 0.005;
  }

  lemma LoadedSorted(cfg: Config)
    ensures SortDirectives(LOADED) == LOADED
    ensures Pads.Synth(cfg, EMPTY, LOADED) == Pads.LateTxn(cfg, Apply(cfg, EMPTY, PAD_FROM_CASH), SMALL_BALANCE)
    ensures Run(cfg, EMPTY, LOADED) == Apply(cfg, Apply(cfg, EMPTY, PAD_FROM_CASH), SMALL_BALANCE)
  {
    hide Apply, Pads.LateFire;
    assert LOADED[..1] == [PAD_FROM_CASH] && [PAD_FROM_CASH][..0] == [];
    assert Sort([PAD_FROM_CASH], DirectiveLess) == [PAD_FROM_CASH];
    Pads.PadIsNotLate(cfg, Run(cfg, EMPTY, []), PAD_FROM_CASH);
    assert Pads.LateTxn(cfg, Run(cfg, EMPTY, []), PAD_FROM_CASH) == [];
    assert Pads.Synth(cfg, EMPTY, [PAD_FROM_CASH]) == Pads.Synth(cfg, EMPTY, []) + [];
    assert Run(cfg, EMPTY, [PAD_FROM_CASH]) == Apply(cfg, EMPTY, PAD_FROM_CASH);
  }

  lemma LoadedUpTo()
    ensures Filter(LOADED, OnOrBefore(2)) == [PAD_FROM_CASH]
    ensures Filter(LOADED, OnOrBefore(3)) == LOADED
  {
    assert LOADED[..1] == [PAD_FROM_CASH] && [PAD_FROM_CASH][..0] == [];
    assert Filter([PAD_FROM_CASH], OnOrBefore(2)) == [PAD_FROM_CASH];
    assert Filter([PAD_FROM_CASH], OnOrBefore(3)) == [PAD_FROM_CASH];
  }

  lemma PadAlone()
    ensures Run(FRESH, EMPTY, SortDirectives([PAD_FROM_CASH])) == Apply(FRESH, EMPTY, PAD_FROM_CASH)
  {
    hide Apply;
    assert [PAD_FROM_CASH][..0] == [];
    assert Sort([PAD_FROM_CASH], DirectiveLess) == [PAD_FROM_CASH];
  }

  lemma BookedUpTo()
    ensures AsOf(LOADED, 2) == PENDING
    ensures AsOf(LOADED, 3) == Apply(FRESH, PENDING, SMALL_BALANCE)
  {
    hide Apply, Run, Sort, Filter;
    PadStaysPending();
    LoadedSorted(FRESH);
    LoadedUpTo();
    PadAlone();
  }

  lemma FiredFromCash()
    ensures Apply(FRESH, PENDING, SMALL_BALANCE).bal == map[Key(OPENING, "USD") := 0.005, Key(CASH, "USD") := -0.005]
  {
    hide CheckAccount;
    assert Shortfall(PENDING, SMALL_BALANCE) == 0.005;
  }

  lemma WorthOf(l: Ledger)
    requires l.op == "USD"
    ensures Worth(l, map[], 2) == 0.0
    ensures Worth(l, map[Key(OPENING, "USD") := 0.005, Key(CASH, "USD") := -0.005], 3) == -0.005
  {
    CountedAccounts();
    var none: Balances := map[];
    assert Held(none) == {};
    var bal: Balances := map[Key(OPENING, "USD") := 0.005, Key(CASH, "USD") := -0.005];
    var f := (k: Key) => MarketValue(l, k.commodity, BalOf(bal, k), 3);
    assert Held(bal) == {Key(CASH, "USD")};
    SumRemove({Key(CASH, "USD")}, f, Key(CASH, "USD"));
    assert {Key(CASH, "USD")} - {Key(CASH, "USD")} == {};
  }

  /**
    A pad of an uncounted account from a counted one: under the looser tolerance the balance holds
    and nothing is expanded, yet the series fires the pad on the balance's day, which takes no
    sample; the net worth changes between two days without one.
  */
  lemma LooserToleranceLeavesPadLate(r: Range)
    requires !Forced(r, 3)
    ensures Pads.PadsApart(LOADED) && LinesComparable(LOADED) && Pads.ExpandPads(LOOSE, LOADED) == LOADED
    ensures !PadsOnTime(LOADED) && !PadsStayCounted(LOADED)
    ensures var l := Ledger(LOADED, map[], "USD", {});
            !Wanted(l, r, 3) && NetWorth(l, 3) != NetWorth(l, 2)
  {
    hide Apply, Pads.LateTxn, Run, AsOf, Worth, Held, IsNetWorth, Pads.Synth, Sort, Pads.Unpriced, Wanted;
    var l := Ledger(LOADED, map[], "USD", {});
    LoadedSorted(FRESH);
    LoadedSorted(LOOSE);
    PadStaysPending();
    BookedUpTo();
    FiredFromCash();
    WorthOf(l);
    CountedAccounts();
    LoadedApart();
    WantedIsHit(l, r, 3);
    assert PENDING.bal == map[];
  }

  lemma LoadedApart()
    ensures Pads.PadsApart(LOADED)
  {
    hide Sort, Pads.SourcesQuiet, Pads.PlainPads;
    LoadedSorted(FRESH);
    LoadedQuiet();
    LoadedPlain();
  }

  lemma LoadedQuiet()
    ensures Pads.SourcesQuiet(LOADED)
  {
    assert OPENING[0] != CASH[0];
  }

  lemma LoadedPlain()
    ensures Pads.PlainPads(LOADED)
  {
    assert !IsSpace("USD"[0]);
  }
}
