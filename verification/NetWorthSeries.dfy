/** Net worth over time: one forward booking pass against re-booking the ledger at every date. */
module NetWorthSeries {
  import opened Ast
  import opened Sorting
  import opened Ordering
  import opened Booking
  import opened Journal
  import opened Sums
  import Pads
  import Prices
  import Quotes
  import Tolerances
  import EngineLoops

  /** A ledger: its stream, the price series, the operating currency, extra revaluation days. */
  datatype Ledger = Ledger(dirs: seq<Directive>, prices: Prices.Series, op: string, extra: set<Date>)

  /** The asked range, open where a bound is 0, and the current day. */
  datatype Range = Range(from: Date, to: Date, today: Date)

  predicate IsNetWorth(account: string) {
    "Assets:" <= account || "Liabilities:" <= account
  }

  // ----- the reference: re-book everything up to a date

  function OnOrBefore(asOf: Date): Directive -> bool {
    (d: Directive) => d.meta.date <= asOf
  }

  function On(day: Date): Directive -> bool {
    (d: Directive) => d.meta.date == day
  }

  /** The engine re-booked from scratch with the directives on or before asOf. */
  ghost function AsOf(dirs: seq<Directive>, asOf: Date): State {
    Run(FRESH, EMPTY, SortDirectives(Filter(dirs, OnOrBefore(asOf))))
  }

  /** Units at market price in the operating currency; unpriced units count as zero. */
  ghost function MarketValue(l: Ledger, comm: string, units: real, asOf: Date): real {
    if comm == l.op || l.op == "" then units
    else
      var r := Prices.Rate(l.prices, comm, l.op, asOf);
      if r.Some? then units * r.value.rate else 0.0
  }

  /** No market price for the commodity by asOf. */
  ghost predicate Unpriced(l: Ledger, comm: string, asOf: Date) {
    comm != l.op && l.op != "" && Prices.Rate(l.prices, comm, l.op, asOf).None?
  }

  /** The nonzero balances that count. */
  function Held(bal: Balances): set<Key> {
    set k | k in bal && IsNetWorth(k.account) && bal[k] != 0.0
  }

  ghost function Worth(l: Ledger, bal: Balances, asOf: Date): real {
    SumOver(Held(bal), (k: Key) => MarketValue(l, k.commodity, BalOf(bal, k), asOf))
  }

  ghost function NetWorth(l: Ledger, asOf: Date): real {
    Worth(l, AsOf(l.dirs, asOf).bal, asOf)
  }

  // ----- the forward pass

  datatype Sample = Sample(date: Date, value: real)

  /** A price of a listed pair on that day: pairs whose key does not split are not listed. */
  ghost predicate PricedOn(s: Prices.Series, day: Date) {
    exists k, i :: k in s && Listed(k) && 0 <= i < |s[k]| && s[k][i].date == day
  }

  predicate Listed(k: string) {
    Prices.SplitKey(k).Some?
  }

  predicate AllListed(s: Prices.Series) {
    forall k | k in s :: Listed(k)
  }

  ghost predicate PriceDay(l: Ledger, day: Date) {
    day in l.extra || (day != 0 && PricedOn(l.prices, day))
  }

  function Terminal(r: Range): Date {
    if r.to == 0 then r.today else r.to
  }

  predicate Forced(r: Range, day: Date) {
    day == Terminal(r) && (r.from == 0 || Terminal(r) >= r.from)
  }

  predicate InRange(r: Range, day: Date) {
    (r.from == 0 || day >= r.from) && (r.to == 0 || day <= r.to)
  }

  /** A directive that can move a counted balance. */
  predicate Touches(d: Directive) {
    match d
    case Transaction(_, _, ps) => exists i | 0 <= i < |ps| :: IsNetWorth(ps[i].account)
    case Pad(_, account, fromAccount) => IsNetWorth(account) || IsNetWorth(fromAccount)
    case Balance(_, account, _) => IsNetWorth(account)
    case _ => false
  }

  ghost predicate Hit(l: Ledger, r: Range, day: Date, s: State) {
    || Forced(r, day)
    || (exists d | d in l.dirs && d.meta.date == day :: Touches(d) || (d.Price? && Held(s.bal) != {}))
    || (PriceDay(l, day) && Held(s.bal) != {})
  }

  /** The state of the one engine, and the samples taken so far. */
  datatype Progress = Progress(s: State, samples: seq<Sample>)

  ghost function WalkDay(l: Ledger, r: Range, p: Progress, day: Date): Progress {
    var s := Run(FRESH, p.s, SortDirectives(Filter(l.dirs, On(day))));
    if day != 0 && InRange(r, day)
        && Hit(l, r, day, s) then Progress(s, p.samples + [Sample(day, Worth(l, s.bal, day))])
    else Progress(s, p.samples)
  }

  ghost function Walk(l: Ledger, r: Range, days: seq<Date>): Progress {
    if days == [] then Progress(EMPTY, [])
    else WalkDay(l, r, Walk(l, r, days[..|days| - 1]), days[|days| - 1])
  }

  /** days lists, in order, every day with a directive, a price, an extra or the terminal sample. */
  ghost predicate Calendar(l: Ledger, r: Range, days: seq<Date>) {
    && (forall i, j | 0 <= i < j < |days| :: days[i] < days[j])
    && (forall i | 0 <= i < |l.dirs| :: l.dirs[i].meta.date in days)
    && (forall day :: PriceDay(l, day) || Forced(r, day) ==> day in days)
  }

  // ----- the pass books what the reference re-books

  lemma {:induction false} FilterSame(s: seq<Directive>, f: Directive -> bool, g: Directive -> bool)
    requires forall d | d in s :: f(d) == g(d)
    ensures Filter(s, f) == Filter(s, g)
  {
    if s != [] {
      FilterSame(s[..|s| - 1], f, g);
      assert s[|s| - 1] in s;
    }
  }

  lemma {:induction false} FilterTwice(s: seq<Directive>, f: Directive -> bool, g: Directive -> bool,
        h: Directive -> bool)
    requires forall d | d in s :: h(d) == (f(d) && g(d))
    ensures Filter(Filter(s, f), g) == Filter(s, h)
  {
    if s != [] {
      var n := |s| - 1;
      FilterTwice(s[..n], f, g, h);
      assert s[n] in s;
      var p := Filter(s[..n], f);
      if f(s[n]) { assert (p + [s[n]])[..|p|] == p; } else { assert p + [] == p; }
    }
  }

  function NotOnOrBefore(asOf: Date): Directive -> bool {
    (d: Directive) => d.meta.date > asOf
  }

  lemma SortByDay(s: seq<Directive>, day: Date)
    ensures SortDirectives(s)
          == SortDirectives(Filter(s, OnOrBefore(day))) + SortDirectives(Filter(s, NotOnOrBefore(day)))
  {
    hide Sort;
    SortSplit(s, OnOrBefore(day), NotOnOrBefore(day), DirectiveLess);
  }

  /** The modelled sort splits off the last day. */
  lemma SplitOffDay(dirs: seq<Directive>, day: Date)
    requires day > 0
    ensures SortDirectives(Filter(dirs, OnOrBefore(day)))
         == SortDirectives(Filter(dirs, OnOrBefore(day - 1))) + SortDirectives(Filter(dirs, On(day)))
  {
    hide Sort;
    var upTo := Filter(dirs, OnOrBefore(day));
    SortByDay(upTo, day - 1);
    FilterTwice(dirs, OnOrBefore(day), OnOrBefore(day - 1), OnOrBefore(day - 1));
    FilterTwice(dirs, OnOrBefore(day), NotOnOrBefore(day - 1), On(day));
  }

  lemma AsOfNext(dirs: seq<Directive>, day: Date)
    requires day > 0
    ensures AsOf(dirs, day) == Run(FRESH, AsOf(dirs, day - 1), SortDirectives(Filter(dirs, On(day))))
  {
    hide Run, Sort;
    SplitOffDay(dirs, day);
    RunConcat(FRESH, EMPTY, SortDirectives(Filter(dirs, OnOrBefore(day - 1))), SortDirectives(Filter(dirs, On(day))));
  }

  /** Nothing is dated after a and up to b, so re-booking at either is the same. */
  lemma AsOfSame(dirs: seq<Directive>, a: Date, b: Date)
    requires a <= b && forall i | 0 <= i < |dirs| :: !(a < dirs[i].meta.date <= b)
    ensures AsOf(dirs, a) == AsOf(dirs, b)
  {
    FilterSame(dirs, OnOrBefore(a), OnOrBefore(b));
  }

  lemma {:induction false} FilterNone(s: seq<Directive>, f: Directive -> bool)
    requires forall d | d in s :: !f(d)
    ensures Filter(s, f) == []
  {
    if s != [] {
      FilterNone(s[..|s| - 1], f);
      assert s[|s| - 1] in s;
    }
  }

  lemma NothingYet(dirs: seq<Directive>, day: Date)
    requires forall i | 0 <= i < |dirs| :: dirs[i].meta.date > day
    ensures AsOf(dirs, day) == EMPTY
  {
    FilterNone(dirs, OnOrBefore(day));
  }

  lemma {:induction false} WalkBooksPrefix(l: Ledger, r: Range, days: seq<Date>, n: nat)
    requires Calendar(l, r, days) && 0 < n <= |days|
    ensures Walk(l, r, days[..n]).s == AsOf(l.dirs, days[n - 1])
  {
    hide AsOf, Run, Worth, Hit, Sort;
    var day := days[n - 1];
    assert days[..n][..n - 1] == days[..n - 1];
    var before := Walk(l, r, days[..n - 1]).s;
    NoneBetween(l, r, days, n);
    if day == 0 {
      assert n == 1;
      AsOfZero(l.dirs);
    } else {
      if n == 1 {
        NothingYet(l.dirs, day - 1);
      } else {
        WalkBooksPrefix(l, r, days, n - 1);
        AsOfSame(l.dirs, days[n - 2], day - 1);
      }
      assert before == AsOf(l.dirs, day - 1);
      AsOfNext(l.dirs, day);
    }
  }

  lemma NoneBetween(l: Ledger, r: Range, days: seq<Date>, n: nat)
    requires Calendar(l, r, days) && 0 < n <= |days|
    ensures forall i | 0 <= i < |l.dirs| && l.dirs[i].meta.date < days[n - 1] ::
              n > 1 && l.dirs[i].meta.date <= days[n - 2]
    ensures days[n - 1] == 0 ==> n == 1
  {
    assert n > 1 ==> days[n - 2] < days[n - 1];
    forall i | 0 <= i < |l.dirs| && l.dirs[i].meta.date < days[n - 1] ensures n > 1
        && l.dirs[i].meta.date <= days[n - 2] {
      var j :| 0 <= j < |days| && days[j] == l.dirs[i].meta.date;
      assert j < n - 1;
    }
  }

  lemma AsOfZero(dirs: seq<Directive>)
    ensures AsOf(dirs, 0) == Run(FRESH, EMPTY, SortDirectives(Filter(dirs, On(0))))
  {
    FilterSame(dirs, OnOrBefore(0), On(0));
  }

  ghost predicate Sampled(l: Ledger, r: Range, days: seq<Date>, day: Date) {
    exists i | 0 <= i < |Walk(l, r, days).samples| :: Walk(l, r, days).samples[i].date == day
  }

  lemma {:induction false} SamplesRebook(l: Ledger, r: Range, days: seq<Date>, n: nat)
    requires Calendar(l, r, days) && n <= |days|
    ensures forall i | 0 <= i < |Walk(l, r, days[..n]).samples| ::
              Walk(l, r, days[..n]).samples[i].value == NetWorth(l, Walk(l, r, days[..n]).samples[i].date)
  {
    hide AsOf, Run, Worth, Hit, Sort, Calendar;
    if n > 0 {
      SamplesRebook(l, r, days, n - 1);
      assert days[..n][..n - 1] == days[..n - 1];
      WalkBooksPrefix(l, r, days, n);
    }
  }

  // ----- whatever stable sort the engine is given

  /** A sorting function that sorts stably whatever the comparator orders. */
  ghost predicate StableSorter(sort: seq<Directive> -> seq<Directive>) {
    forall s | WeakOrder(s, DirectiveLess) :: StableSort(s, sort(s), DirectiveLess)
  }

  ghost function AsOfBy(sort: seq<Directive> -> seq<Directive>, dirs: seq<Directive>, asOf: Date): State {
    Run(FRESH, EMPTY, sort(Filter(dirs, OnOrBefore(asOf))))
  }

  ghost function NetWorthBy(sort: seq<Directive> -> seq<Directive>, l: Ledger, asOf: Date): real {
    Worth(l, AsOfBy(sort, l.dirs, asOf).bal, asOf)
  }

  ghost function WalkDayBy(
      sort: seq<Directive> -> seq<Directive>, l: Ledger, r: Range, p: Progress, day: Date): Progress {
    var s := Run(FRESH, p.s, sort(Filter(l.dirs, On(day))));
    if day != 0 && InRange(r, day) && Hit(l, r, day, s)
    then Progress(s, p.samples + [Sample(day, Worth(l, s.bal, day))])
    else Progress(s, p.samples)
  }

  ghost function WalkBy(sort: seq<Directive> -> seq<Directive>, l: Ledger, r: Range, days: seq<Date>): Progress {
    if days == [] then Progress(EMPTY, [])
    else WalkDayBy(sort, l, r, WalkBy(sort, l, r, days[..|days| - 1]), days[|days| - 1])
  }

  lemma PartSorted(sort: seq<Directive> -> seq<Directive>, dirs: seq<Directive>, keep: Directive -> bool)
    requires StableSorter(sort) && LinesComparable(dirs)
    ensures sort(Filter(dirs, keep)) == SortDirectives(Filter(dirs, keep))
  {
    hide Sort, StableSort, WeakOrder;
    var part := Filter(dirs, keep);
    FilterElements(dirs, keep);
    PartComparable(part, dirs);
    OrderIsWeak(part);
    StableSortIsUnique(part, sort(part), DirectiveLess);
  }

  /** The modelled sort is one. */
  lemma ModelSortsStably()
    ensures StableSorter(SortDirectives)
  {
    hide Sort, WeakOrder, StableSort;
    forall s | WeakOrder(s, DirectiveLess) ensures StableSort(s, SortDirectives(s), DirectiveLess) {
      SortIsStable(s, DirectiveLess);
    }
  }

  lemma PartComparable(part: seq<Directive>, dirs: seq<Directive>)
    requires LinesComparable(dirs) && forall d | d in part :: d in dirs
    ensures LinesComparable(part)
  {
  }

  /** With comparable lines every stable sort gives the same net worth and the same forward pass. */
  lemma {:induction false} SortDoesNotMatter(
      sort: seq<Directive> -> seq<Directive>, l: Ledger, r: Range, days: seq<Date>, asOf: Date)
    requires StableSorter(sort) && LinesComparable(l.dirs)
    ensures AsOfBy(sort, l.dirs, asOf) == AsOf(l.dirs, asOf) && NetWorthBy(sort, l, asOf) == NetWorth(l, asOf)
    ensures WalkBy(sort, l, r, days) == Walk(l, r, days)
    decreases |days|
  {
    hide Sort, Worth, Run, Hit, StableSorter, LinesComparable;
    PartSorted(sort, l.dirs, OnOrBefore(asOf));
    if days != [] {
      PartSorted(sort, l.dirs, On(days[|days| - 1]));
      SortDoesNotMatter(sort, l, r, days[..|days| - 1], asOf);
    }
  }

  /** The stable sort up to a day is the sort up to the day before, then the sort of that day. */
  lemma SortOneDay(sort: seq<Directive> -> seq<Directive>, dirs: seq<Directive>, day: Date)
    requires StableSorter(sort) && LinesComparable(dirs) && day > 0
    ensures sort(Filter(dirs, OnOrBefore(day))) == sort(Filter(dirs, OnOrBefore(day - 1))) + sort(Filter(dirs, On(day)))
  {
    hide Sort, StableSorter, LinesComparable;
    PartSorted(sort, dirs, OnOrBefore(day));
    PartSorted(sort, dirs, OnOrBefore(day - 1));
    PartSorted(sort, dirs, On(day));
    SplitOffDay(dirs, day);
  }

  /** After each day the one engine is where re-booking up to that day ends. */
  lemma WalkIsAsOf(sort: seq<Directive> -> seq<Directive>, l: Ledger, r: Range, days: seq<Date>, n: nat)
    requires StableSorter(sort) && LinesComparable(l.dirs) && Calendar(l, r, days) && 0 < n <= |days|
    ensures WalkBy(sort, l, r, days[..n]).s == AsOfBy(sort, l.dirs, days[n - 1])
  {
    hide StableSorter, LinesComparable, Calendar, Walk, AsOf, WalkBy, AsOfBy;
    SortDoesNotMatter(sort, l, r, days[..n], days[n - 1]);
    WalkBooksPrefix(l, r, days, n);
  }

  /** Every sample of the forward pass is the net worth re-booked at its date. */
  lemma SamplesAreNetWorth(sort: seq<Directive> -> seq<Directive>, l: Ledger, r: Range, days: seq<Date>, i: nat)
    requires StableSorter(sort) && LinesComparable(l.dirs) && Calendar(l, r, days)
    requires i < |WalkBy(sort, l, r, days).samples|
    ensures var sample := WalkBy(sort, l, r, days).samples[i];
            sample.value == NetWorthBy(sort, l, sample.date)
  {
    hide StableSorter, LinesComparable, Calendar, Walk, NetWorth, WalkBy, NetWorthBy;
    SortDoesNotMatter(sort, l, r, days, WalkBy(sort, l, r, days).samples[i].date);
    SamplesRebook(l, r, days, |days|);
    assert days[..|days|] == days;
  }

  predicate DatedIn(samples: seq<Sample>, days: seq<Date>) {
    forall k | 0 <= k < |samples| :: samples[k].date in days
  }

  lemma {:induction false} SampleDates(l: Ledger, r: Range, days: seq<Date>, n: nat)
    requires n <= |days|
    ensures DatedIn(Walk(l, r, days[..n]).samples, days[..n])
  {
    hide Run, Worth, Hit, Sort, InRange;
    if n > 0 {
      assert days[..n][..n - 1] == days[..n - 1];
      SampleDates(l, r, days, n - 1);
      var p, q := Walk(l, r, days[..n - 1]).samples, Walk(l, r, days[..n]).samples;
      forall k | 0 <= k < |q| ensures q[k].date in days[..n] {
        assert k < |p| ==> q[k] == p[k] && p[k].date in days[..n - 1];
        assert days[..n][n - 1] == days[n - 1] && days[..n] == days[..n - 1] + [days[n - 1]];
      }
    }
  }

  lemma EarlierDays(l: Ledger, r: Range, days: seq<Date>, n: nat, day: Date)
    requires Calendar(l, r, days) && 0 < n <= |days| && day in days[..n - 1]
    ensures day < days[n - 1]
  {
    var j :| 0 <= j < n - 1 && days[..n - 1][j] == day;
    assert days[j] < days[n - 1];
  }

  /** The account is an asset or a liability. */
  predicate Counted(account: string) {
    "Assets:" <= account || "Liabilities:" <= account
  }

  /** The directive names a counted account: in a posting, on either side of a pad, in a balance. */
  predicate NamesCounted(d: Directive) {
    || (d.Transaction? && exists i | 0 <= i < |d.postings| :: Counted(d.postings[i].account))
    || (d.Pad? && (Counted(d.account) || Counted(d.fromAccount)))
    || (d.Balance? && Counted(d.account))
  }

  ghost predicate HoldsSomething(bal: Balances) {
    exists k | k in bal :: Counted(k.account) && bal[k] != 0.0
  }

  /** A price is written for the day: in the stream, in the database or as an extra day. */
  ghost predicate PriceOn(l: Ledger, day: Date) {
    || (exists d | d in l.dirs :: d.Price? && d.meta.date == day)
    || (exists k, i :: k in l.prices && Prices.SplitKey(k).Some? && 0 <= i < |l.prices[k]|
                       && l.prices[k][i].date == day)
    || day in l.extra
  }

  /**
    A sample is wanted on a dated day between the bounds that are set: on the last day asked for, or today when
    none is; on a day whose directives name a counted account; and on a day with a price while something is held.
  */
  ghost predicate Wanted(l: Ledger, r: Range, day: Date) {
    && day != 0 && (r.from != 0 ==> r.from <= day) && (r.to != 0 ==> day <= r.to)
    && (|| day == (if r.to != 0 then r.to else r.today)
        || (exists d | d in l.dirs && d.meta.date == day :: NamesCounted(d))
        || (PriceOn(l, day) && HoldsSomething(AsOf(l.dirs, day).bal)))
  }

  lemma WantedIsHit(l: Ledger, r: Range, day: Date)
    ensures Wanted(l, r, day) <==> day != 0 && InRange(r, day) && Hit(l, r, day, AsOf(l.dirs, day))
  {
    hide AsOf, Prices.SplitKey;
    var bal := AsOf(l.dirs, day).bal;
    assert HoldsSomething(bal) <==> Held(bal) != {} by {
      if k :| k in bal && Counted(k.account) && bal[k] != 0.0 { assert k in Held(bal); }
      if k :| k in Held(bal) { assert Counted(k.account); }
    }
    forall d ensures NamesCounted(d) <==> Touches(d) { TouchesCounted(d); }
    if day != 0 && InRange(r, day) {
      assert Forced(r, day) <==> day == (if r.to != 0 then r.to else r.today);
    }
  }

  lemma TouchesCounted(d: Directive)
    ensures NamesCounted(d) <==> Touches(d)
  {
  }

  /** A day of the calendar is sampled exactly when a sample is wanted. */
  lemma {:induction false} SampledExactly(l: Ledger, r: Range, days: seq<Date>, n: nat, i: nat)
    requires Calendar(l, r, days) && i < n <= |days|
    ensures Sampled(l, r, days[..n], days[i]) <==> Wanted(l, r, days[i])
  {
    hide AsOf, Run, Worth, Hit, Sort, InRange, Wanted;
    assert days[..n][..n - 1] == days[..n - 1];
    var p, q := Walk(l, r, days[..n - 1]).samples, Walk(l, r, days[..n]).samples;
    assert p <= q && |q| <= |p| + 1 && (|q| > |p| ==> q[|p|].date == days[n - 1]);
    if i == n - 1 {
      WalkBooksPrefix(l, r, days, n);
      WantedIsHit(l, r, days[i]);
      SampleDates(l, r, days, n - 1);
      forall k | 0 <= k < |p| ensures p[k].date != days[i] {
        assert p[k].date in days[..n - 1];
        EarlierDays(l, r, days, n, p[k].date);
      }
    } else {
      SampledExactly(l, r, days, n - 1, i);
      assert days[i] != days[n - 1];
      SamplesPrefix(p, q, days[i]);
    }
  }

  lemma SamplesPrefix(p: seq<Sample>, q: seq<Sample>, day: Date)
    requires p <= q && |q| <= |p| + 1 && (|q| > |p| ==> q[|p|].date != day)
    ensures (exists k | 0 <= k < |q| :: q[k].date == day) <==> exists k | 0 <= k < |p| :: p[k].date == day
  {
    if k :| 0 <= k < |p| && p[k].date == day {
      assert q[k].date == day;
    }
    if k :| 0 <= k < |q| && q[k].date == day {
      assert p[k].date == day;
    }
  }

  // ----- the program's loops

  predicate DayLess(a: Date, b: Date) {
    a < b
  }

  /** The days of a set in order: collected in any order, then sorted. */
  method SortDays(s: set<Date>) returns (days: seq<Date>)
    ensures (forall i, j | 0 <= i < j < |days| :: days[i] < days[j]) && forall d :: d in days <==> d in s
  {
    var xs, todo := [], s;
    while todo != {}
      invariant todo <= s && forall d :: d in xs <==> d in s - todo
      invariant Distinct(xs)
      decreases |todo|
    {
      var d :| d in todo;
      assert d !in xs;
      xs := xs + [d];
      todo := todo - {d};
    }
    days := SortedCopy(xs, DayLess);
    DaysOrdered(xs);
    SortSorted(xs, DayLess, xs);
    SortElements(xs, DayLess);
    SortDistinct(xs, DayLess);
    assert forall i, j | 0 <= i < j < |days| :: !DayLess(days[j], days[i]) && days[i] != days[j];
  }

  lemma DaysOrdered(xs: seq<Date>)
    ensures WeakOrder(xs, DayLess)
  {
  }

  function PointDays(pts: seq<Prices.Point>): set<Date> {
    set i | 0 <= i < |pts| :: pts[i].date
  }

  /** The days with a price, from every series of the database. */
  method PriceDates(s: Prices.Series) returns (days: set<Date>)
    ensures forall day :: day in days <==> PricedOn(s, day)
  {
    hide Listed;
    var todo := s.Keys;
    days := {};
    while todo != {}
      invariant todo <= s.Keys
      invariant forall day :: day in days <==> exists k :: k in s && Listed(k) && k !in todo && day in PointDays(s[k])
      decreases |todo|
    {
      var k :| k in todo;
      todo := todo - {k};
      if Listed(k) {
        days := days + PointDays(s[k]);
      }
    }
    forall day ensures day in days <==> PricedOn(s, day) {
      if PricedOn(s, day) {
        var k, i :| k in s && Listed(k) && 0 <= i < |s[k]| && s[k][i].date == day;
        assert day in PointDays(s[k]);
      }
    }
  }

  /** Every day with a directive, a price, an extra sample or the terminal one, in order. */
  method CalendarOf(l: Ledger, r: Range) returns (days: seq<Date>, priceDays: set<Date>)
    ensures Calendar(l, r, days)
    ensures forall day :: day in priceDays <==> PriceDay(l, day)
  {
    hide PricedOn;
    var priced := PriceDates(l.prices);
    priceDays := l.extra + (priced - {0});
    var all := priceDays + set d | d in l.dirs :: d.meta.date;
    if r.from == 0 || Terminal(r) >= r.from { all := all + {Terminal(r)}; }
    days := SortDays(all);
    assert forall i | 0 <= i < |l.dirs| :: l.dirs[i] in l.dirs && l.dirs[i].meta.date in all;
  }

  /** The directives of each day, in stream order. */
  method GroupByDay(dirs: seq<Directive>) returns (byDay: map<Date, seq<Directive>>)
    ensures forall day :: (if day in byDay then byDay[day] else []) == Filter(dirs, On(day))
  {
    byDay := map[];
    for i := 0 to |dirs|
      invariant forall day :: (if day in byDay then byDay[day] else []) == Filter(dirs[..i], On(day))
    {
      assert dirs[..i + 1][..i] == dirs[..i];
      var day := dirs[i].meta.date;
      byDay := byDay[day := (if day in byDay then byDay[day] else []) + [dirs[i]]];
    }
    assert dirs[..|dirs|] == dirs;
  }

  /** Units at the rate from their commodity to the operating currency, and nothing, flagged, without one. */
  lemma MarketValueIs(l: Ledger, log: seq<Prices.Quote>, comm: string, units: real, asOf: Date)
    requires Quotes.CleanLog(log) && l.prices == Prices.Load(log) && l.op != ""
    ensures forall day, rate | Quotes.RatedAt(log, comm, l.op, asOf, day, rate) ::
              MarketValue(l, comm, units, asOf) == units * rate && !Unpriced(l, comm, asOf)
    ensures !Quotes.Rated(log, comm, l.op, asOf) ==> MarketValue(l, comm, units, asOf) == 0.0 && Unpriced(l, comm, asOf)
  {
    hide Prices.Rate, Prices.Load, Quotes.RatedAt, Quotes.CleanLog;
    forall day, rate | Quotes.RatedAt(log, comm, l.op, asOf, day, rate)
      ensures MarketValue(l, comm, units, asOf) == units * rate && !Unpriced(l, comm, asOf)
    {
      RatedConverts(l, log, comm, units, asOf, day, rate);
    }
    Quotes.RatedSame(log, comm, asOf, asOf, 1.0);
    var p := Prices.Rate(l.prices, comm, l.op, asOf);
    if p.Some? { Quotes.RateIsRated(log, comm, l.op, asOf, p.value.date, p.value.rate); }
  }

  /** The two plain cases: a price of the commodity in the operating currency multiplies, one of the
      operating currency in the commodity divides. */
  lemma WrittenPriceConverts(l: Ledger, log: seq<Prices.Quote>, comm: string, units: real, asOf: Date, i: int)
    requires Quotes.CleanLog(log) && l.prices == Prices.Load(log) && l.op != "" && l.op != comm
    ensures Quotes.LastQuote(log, comm, l.op, asOf, i) ==> MarketValue(l, comm, units, asOf) == units * log[i].rate
    ensures (Quotes.Unquoted(log, comm, l.op, asOf) && Quotes.LastQuote(log, l.op, comm, asOf, i)
             && log[i].rate != 0.0)
            ==> MarketValue(l, comm, units, asOf) == units / log[i].rate
  {
    hide MarketValue, Prices.Load, Quotes.CleanLog, Quotes.LastQuote, Quotes.Unquoted;
    if Quotes.LastQuote(log, comm, l.op, asOf, i) { PriceMultiplies(l, log, comm, units, asOf, i); }
    if Quotes.Unquoted(log, comm, l.op, asOf) && Quotes.LastQuote(log, l.op, comm, asOf, i) {
      PriceDivides(l, log, comm, units, asOf, i);
    }
  }

  lemma PriceMultiplies(l: Ledger, log: seq<Prices.Quote>, comm: string, units: real, asOf: Date, i: int)
    requires Quotes.CleanLog(log) && l.prices == Prices.Load(log) && l.op != "" && l.op != comm
    requires Quotes.LastQuote(log, comm, l.op, asOf, i)
    ensures MarketValue(l, comm, units, asOf) == units * log[i].rate
  {
    hide MarketValue, Prices.Load, Quotes.CleanLog, Quotes.RatedAt, Quotes.LastQuote;
    Quotes.RatedThere(log, comm, l.op, asOf, i);
    RatedConverts(l, log, comm, units, asOf, log[i].date, log[i].rate);
  }

  lemma PriceDivides(l: Ledger, log: seq<Prices.Quote>, comm: string, units: real, asOf: Date, i: int)
    requires Quotes.CleanLog(log) && l.prices == Prices.Load(log) && l.op != "" && l.op != comm
    requires Quotes.Unquoted(log, comm, l.op, asOf) && Quotes.LastQuote(log, l.op, comm, asOf, i)
    ensures log[i].rate != 0.0 ==> MarketValue(l, comm, units, asOf) == units / log[i].rate
  {
    hide MarketValue, Prices.Load, Quotes.CleanLog, Quotes.RatedAt, Quotes.Unquoted, Quotes.LastQuote;
    Quotes.RatedBack(log, comm, l.op, asOf, i);
    if log[i].rate != 0.0 {
      RatedConverts(l, log, comm, units, asOf, log[i].date, 1.0 / log[i].rate);
      Divide(units, log[i].rate);
    }
  }

  lemma RatedConverts(l: Ledger, log: seq<Prices.Quote>, comm: string, units: real, asOf: Date, day: Date, rate: real)
    requires Quotes.CleanLog(log) && l.prices == Prices.Load(log) && l.op != ""
    requires Quotes.RatedAt(log, comm, l.op, asOf, day, rate)
    ensures MarketValue(l, comm, units, asOf) == units * rate && !Unpriced(l, comm, asOf)
  {
    hide Prices.Rate, Prices.Load, Quotes.RatedAt, Quotes.CleanLog;
    Quotes.RateIsRated(log, comm, l.op, asOf, day, rate);
    Quotes.RatedSame(log, comm, asOf, day, rate);
  }

  lemma Divide(x: real, y: real)
    ensures y != 0.0 ==> x * (1.0 / y) == x / y
  {
  }

  /** Market price only: the pair, its inverse or one hop; nothing else counts. */
  method MarketConvert(l: Ledger, db: Prices.DB, comm: string, units: real, asOf: Date)
      returns (value: real, unpriced: bool)
    requires db.series == l.prices
    ensures value == MarketValue(l, comm, units, asOf) && unpriced == Unpriced(l, comm, asOf)
    ensures comm == l.op || l.op == "" ==> value == units && !unpriced
    ensures forall log, day, rate | Quotes.CleanLog(log) && l.prices == Prices.Load(log) && l.op != "" && comm != l.op
              && Quotes.RatedAt(log, comm, l.op, asOf, day, rate) :: value == units * rate && !unpriced
    ensures forall log | Quotes.CleanLog(log) && l.prices == Prices.Load(log) && l.op != "" && comm != l.op
              && !Quotes.Rated(log, comm, l.op, asOf) :: value == 0.0 && unpriced
  {
    hide Prices.Rate, Prices.Load, Quotes.RatedAt, Quotes.Rated, Quotes.CleanLog;
    if comm == l.op || l.op == "" { return units, false; }
    var rate := db.RateOf(comm, l.op, asOf);
    value := if rate.Some? then units * rate.value.rate else 0.0;
    unpriced := rate.None?;
    forall log | Quotes.CleanLog(log) && l.prices == Prices.Load(log)
      ensures forall day, rate | Quotes.RatedAt(log, comm, l.op, asOf, day, rate) :: value == units * rate && !unpriced
      ensures !Quotes.Rated(log, comm, l.op, asOf) ==> value == 0.0 && unpriced
    {
      MarketValueIs(l, log, comm, units, asOf);
    }
  }

  /**
    Net worth is a sum: over the balances, re-booked up to the date, of asset and liability accounts,
    of units times the rate read off the written prices; unpriced commodities count nothing, and without an
    operating currency every unit counts as it is.
  */
  lemma NetWorthIsSum(l: Ledger, log: seq<Prices.Quote>, asOf: Date, rates: string -> real)
    requires Quotes.CleanLog(log) && l.prices == Prices.Load(log)
    requires forall c :: if l.op == "" then rates(c) == 1.0
                         else if Quotes.Rated(log, c, l.op, asOf)
                         then exists day :: Quotes.RatedAt(log, c, l.op, asOf, day, rates(c))
                         else rates(c) == 0.0
    ensures var bal := Run(FRESH, EMPTY, SortDirectives(Filter(l.dirs, (d: Directive) => d.meta.date <= asOf))).bal;
            var keys := set k | k in bal && ("Assets:" <= k.account || "Liabilities:" <= k.account);
            NetWorth(l, asOf) == SumOver(keys, (k: Key) => BalOf(bal, k) * rates(k.commodity))
  {
    hide Run, Sort, Prices.Load, Quotes.RatedAt, Quotes.Rated, Quotes.CleanLog, MarketValue;
    FilterSame(l.dirs, OnOrBefore(asOf), (d: Directive) => d.meta.date <= asOf);
    var bal := AsOf(l.dirs, asOf).bal;
    var keys := set k | k in bal && ("Assets:" <= k.account || "Liabilities:" <= k.account);
    var f := (k: Key) => MarketValue(l, k.commodity, BalOf(bal, k), asOf);
    var g := (k: Key) => BalOf(bal, k) * rates(k.commodity);
    forall k | k in keys ensures f(k) == g(k) {
      ValueAtRate(l, log, k.commodity, BalOf(bal, k), asOf, rates(k.commodity));
    }
    SumDrop(Held(bal), keys, g);
    SumSame(Held(bal), f, g);
  }

  lemma ValueAtRate(l: Ledger, log: seq<Prices.Quote>, c: string, units: real, asOf: Date, rate: real)
    requires Quotes.CleanLog(log) && l.prices == Prices.Load(log)
    requires if l.op == "" then rate == 1.0
             else if Quotes.Rated(log, c, l.op, asOf) then exists day :: Quotes.RatedAt(log, c, l.op, asOf, day, rate)
             else rate == 0.0
    ensures MarketValue(l, c, units, asOf) == units * rate
  {
    hide Prices.Load, Quotes.RatedAt, Quotes.Rated, Quotes.CleanLog, Prices.Rate;
    if l.op != "" { MarketValueIs(l, log, c, units, asOf); }
  }

  /** Sums the market values of the counted balances, in whatever order the map yields them. */
  method NetWorthFromBook(l: Ledger, db: Prices.DB, bal: Balances, asOf: Date) returns (total: real)
    requires db.series == l.prices
    ensures total == Worth(l, bal, asOf)
  {
    hide MarketValue, IsNetWorth;
    ghost var f := (k: Key) => MarketValue(l, k.commodity, BalOf(bal, k), asOf);
    var todo := Held(bal);
    total := 0.0;
    while todo != {}
      invariant todo <= Held(bal) && total + SumOver(todo, f) == Worth(l, bal, asOf)
      decreases |todo|
    {
      var k :| k in todo;
      SumRemove(todo, f, k);
      var value, _ := MarketConvert(l, db, k.commodity, bal[k], asOf);
      total := total + value;
      todo := todo - {k};
    }
  }

  /** Re-books the stream up to asOf. */
  method BalancesAsOf(l: Ledger, asOf: Date) returns (bal: Balances)
    ensures bal == AsOf(l.dirs, asOf).bal
  {
    hide Run, Sort;
    var b := new EngineLoops.Engine(FRESH);
    var subset := [];
    for i := 0 to |l.dirs|
      invariant subset == Filter(l.dirs[..i], OnOrBefore(asOf))
    {
      assert l.dirs[..i + 1][..i] == l.dirs[..i];
      if l.dirs[i].meta.date <= asOf { subset := subset + [l.dirs[i]]; }
    }
    assert l.dirs[..|l.dirs|] == l.dirs;
    b.Book(subset);
    bal := b.bal;
  }

  /** Does a day, with its directives ds and the state after them, deserve a sample? */
  method IsHit(r: Range, day: Date, ds: seq<Directive>, priceDay: bool, held: bool) returns (hit: bool)
    ensures hit <==>
            || Forced(r, day)
            || (exists i | 0 <= i < |ds| :: Touches(ds[i]) || (ds[i].Price? && held))
            || (priceDay && held)
  {
    hide Touches;
    hit := Forced(r, day);
    if hit { return; }
    for i := 0 to |ds|
      invariant forall j | 0 <= j < i :: !(Touches(ds[j]) || (ds[j].Price? && held))
    {
      if Touches(ds[i]) || (ds[i].Price? && held) { return true; }
    }
    hit := priceDay && held;
  }

  lemma HitIs(l: Ledger, r: Range, day: Date, s: State, ds: seq<Directive>)
    requires ds == Filter(l.dirs, On(day))
    ensures Hit(l, r, day, s) <==>
            Forced(r, day) || (exists i | 0 <= i < |ds| :: Touches(ds[i]) || (ds[i].Price? && Held(s.bal) != {}))
            || (PriceDay(l, day) && Held(s.bal) != {})
  {
    hide Touches, Held, PriceDay, Forced;
    FilterElements(l.dirs, On(day));
    if d :| d in l.dirs && d.meta.date == day && (Touches(d) || (d.Price? && Held(s.bal) != {})) {
      assert d in ds;
    }
    forall i | 0 <= i < |ds| ensures ds[i] in l.dirs && ds[i].meta.date == day { assert ds[i] in ds; }
  }

  /** The forward pass: one engine, advanced day by day. */
  method WalkBalanceSeries(l: Ledger, db: Prices.DB, r: Range) returns (out: seq<Sample>, days: seq<Date>)
    requires db.series == l.prices
    ensures Calendar(l, r, days) && out == Walk(l, r, days).samples
  {
    hide Worth, Run, Sort, Hit, Calendar, Forced, Touches, PriceDay;
    var byDay := GroupByDay(l.dirs);
    var order, priceDays := CalendarOf(l, r);
    days := order;
    var b := new EngineLoops.Engine(FRESH);
    out := [];
    for i := 0 to |order|
      invariant b.cfg == FRESH && fresh(b) && db.series == l.prices
      invariant Progress(b.S(), out) == Walk(l, r, order[..i])
    {
      assert order[..i + 1][..i] == order[..i];
      var day := order[i];
      var ds := if day in byDay then byDay[day] else [];
      b.Book(ds);
      if day != 0 && InRange(r, day) {
        HitIs(l, r, day, b.S(), ds);
        var hit := IsHit(r, day, ds, day in priceDays, Held(b.bal) != {});
        if hit {
          var value := NetWorthFromBook(l, db, b.bal, day);
          out := out + [Sample(day, value)];
        }
      }
    }
    assert order[..|order|] == order;
  }

  predicate ZeroSample(p: Sample) {
    p.value == 0.0
  }

  /** Drops leading and trailing zero samples, and only those. */
  method TrimZeroEdges(pts: seq<Sample>) returns (out: seq<Sample>)
    ensures exists lo, hi | 0 <= lo <= hi <= |pts| ::
              && out == pts[lo..hi]
              && (forall i | 0 <= i < |pts| && !(lo <= i < hi) :: ZeroSample(pts[i]))
              && (out != [] ==> !ZeroSample(out[0]) && !ZeroSample(out[|out| - 1]))
  {
    var lo, hi := 0, |pts|;
    while lo < hi && ZeroSample(pts[lo])
      invariant 0 <= lo <= hi == |pts| && forall i | 0 <= i < lo :: ZeroSample(pts[i])
    {
      lo := lo + 1;
    }
    while hi > lo && ZeroSample(pts[hi - 1])
      invariant 0 <= lo <= hi <= |pts| && forall i | 0 <= i < |pts| && !(lo <= i < hi) :: ZeroSample(pts[i])
      invariant lo < hi ==> !ZeroSample(pts[lo])
    {
      hi := hi - 1;
    }
    out := pts[lo..hi];
  }
}
