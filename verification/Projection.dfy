/** Projected units of an interest-bearing account: the day-by-day walk against its closed form. */
module Projection {
  import opened Ast
  import opened Sorting

  /** A dated change on the account; set gives the units outright, as a balance does. */
  datatype Event = Event(day: Date, set_: bool, comm: string, amount: real)

  /** On one day balances come before transactions, as in booking. */
  predicate EventLess(a: Event, b: Event) {
    if a.day == b.day then a.set_ && !b.set_ else a.day < b.day
  }

  /** Daily returns by indicator and day. */
  type IndexDB = map<string, map<Date, real>>

  function IndexRate(idx: IndexDB, indicator: string, day: Date): real {
    if indicator == "FIXED" || indicator !in idx || day !in idx[indicator] then 0.0 else idx[indicator][day]
  }

  function EffectiveRate(rate: InterestRate, idx: IndexDB, day: Date): real {
    rate.alpha * IndexRate(idx, rate.indicator, day) + (if rate.plusDaily.Some? then rate.plusDaily.value else 0.0)
  }

  function PostingEvents(account: string, day: Date, ps: seq<Posting>): seq<Event> {
    if ps == [] then []
    else
      var p := ps[|ps| - 1];
      PostingEvents(account, day, ps[..|ps| - 1]) +
      (if p.account == account && p.units.Some? && p.units.value.number.Some?
       then [Event(day, false, p.units.value.commodity, p.units.value.number.value)] else [])
  }

  function EventsOf(account: string, d: Directive): seq<Event> {
    match d
    case Transaction(meta, _, postings) => PostingEvents(account, meta.date, postings)
    case Balance(meta, a, amount) => if a
        == account then [Event(meta.date, true, amount.commodity, amount.number)] else []
    case _ => []
  }

  function Events(account: string, dirs: seq<Directive>): seq<Event> {
    if dirs == [] then []
    else Events(account, dirs[..|dirs| - 1]) + EventsOf(account, dirs[|dirs| - 1])
  }

  type Units = map<string, real>

  function UnitsIn(bal: Units, c: string): real {
    if c in bal then bal[c] else 0.0
  }

  /** Units so far, and the next event to apply. */
  datatype Walk = Walk(bal: Units, next: nat)

  function Accrue(x: real, eff: real): real {
    if x == 0.0 then x else x + x * eff
  }

  function Interest(bal: Units, eff: real): Units {
    if eff == 0.0 then bal else map c | c in bal :: Accrue(bal[c], eff)
  }

  function ApplyEvent(bal: Units, e: Event): Units {
    bal[e.comm := if e.set_ then e.amount else UnitsIn(bal, e.comm) + e.amount]
  }

  function DayEvents(events: seq<Event>, w: Walk, day: Date): Walk
    decreases |events| - w.next
  {
    if w.next < |events| && events[w.next].day == day
    then DayEvents(events, Walk(ApplyEvent(w.bal, events[w.next]), w.next + 1), day)
    else w
  }

  function WalkDay(rate: InterestRate, idx: IndexDB, events: seq<Event>, open: Date, w: Walk, day: Date): Walk {
    DayEvents(events, if day > open then w.(bal := Interest(w.bal, EffectiveRate(rate, idx, day))) else w, day)
  }

  /** The walk from the open date through day. */
  function WalkTo(rate: InterestRate, idx: IndexDB, events: seq<Event>, open: Date, day: int): Walk
    requires day >= open - 1
    decreases day - open + 1
  {
    if day < open then Walk(map[], 0)
    else WalkDay(rate, idx, events, open, WalkTo(rate, idx, events, open, day - 1), day)
  }

  /** The last projected day: as asked, but before the close. */
  function LastDay(closeDate: Option<Date>, asOf: Date): int {
    if closeDate.Some? && asOf >= closeDate.value then closeDate.value - 1 else asOf
  }

  function NonZero(bal: Units): Units {
    map c | c in bal && bal[c] != 0.0 :: bal[c]
  }

  function SortedEvents(account: string, dirs: seq<Directive>): seq<Event> {
    Sort(Events(account, dirs), EventLess)
  }

  function ProjectedUnits(account: string, rate: InterestRate, open: Date, closeDate: Option<Date>,
                          dirs: seq<Directive>, idx: IndexDB, asOf: Date): Units {
    if LastDay(closeDate, asOf) < open then map[]
    else NonZero(WalkTo(rate, idx, SortedEvents(account, dirs), open, LastDay(closeDate, asOf)).bal)
  }

  // ----- the closed form

  /** Product of the daily growth factors after from, up to and including to. */
  function Growth(rate: InterestRate, idx: IndexDB, from: Date, to: int): real
    decreases to
  {
    if to <= from then 1.0 else Growth(rate, idx, from, to - 1) * (1.0 + EffectiveRate(rate, idx, to))
  }

  /**
    Units of c at the end of day, given the events up to then, all at once: the value at the last
    event on c, grown over the days since; a balance forgets everything before it.
  */
  function Value(rate: InterestRate, idx: IndexDB, events: seq<Event>, c: string, day: int): real {
    if events == [] then 0.0
    else
      var e, earlier := events[|events| - 1], events[..|events| - 1];
      if e.comm != c then Value(rate, idx, earlier, c, day)
      else (if e.set_ then e.amount else Value(rate, idx, earlier, c, e.day) + e.amount) * Growth(rate, idx, e.day, day)
  }

  ghost predicate UpTo(events: seq<Event>, day: int) {
    forall i | 0 <= i < |events| :: events[i].day <= day
  }

  lemma EventsOrdered(events: seq<Event>)
    ensures WeakOrder(events, EventLess)
  {
  }

  lemma {:induction false} ValueGrows(rate: InterestRate, idx: IndexDB, events: seq<Event>, c: string, day: Date)
    requires day > 0 && UpTo(events, day - 1)
    ensures Value(rate, idx, events, c, day)
          == Value(rate, idx, events, c, day - 1) * (1.0 + EffectiveRate(rate, idx, day))
  {
    hide EffectiveRate;
    if events != [] {
      var e, earlier := events[|events| - 1], events[..|events| - 1];
      if e.comm != c {
        ValueGrows(rate, idx, earlier, c, day);
      } else {
        var v := if e.set_ then e.amount else Value(rate, idx, earlier, c, e.day) + e.amount;
        Associative(v, Growth(rate, idx, e.day, day - 1), 1.0 + EffectiveRate(rate, idx, day));
      }
    }
  }

  lemma Associative(x: real, y: real, z: real)
    ensures x * (y * z) == (x * y) * z
  {
  }

  lemma InterestIs(bal: Units, eff: real, c: string)
    ensures UnitsIn(Interest(bal, eff), c) == UnitsIn(bal, c) * (1.0 + eff)
  {
    Distribute(UnitsIn(bal, c), eff);
  }

  lemma Distribute(x: real, y: real)
    ensures x * (1.0 + y) == x + x * y
  {
  }

  /** The walk holds the value of every commodity after the events it has applied. */
  ghost predicate Holds(rate: InterestRate, idx: IndexDB, events: seq<Event>, w: Walk, day: int) {
    w.next <= |events| && forall c :: UnitsIn(w.bal, c) == Value(rate, idx, events[..w.next], c, day)
  }

  lemma EventHolds(rate: InterestRate, idx: IndexDB, events: seq<Event>, w: Walk, day: Date)
    requires Holds(rate, idx, events, w, day) && w.next < |events| && events[w.next].day == day
    ensures Holds(rate, idx, events, Walk(ApplyEvent(w.bal, events[w.next]), w.next + 1), day)
  {
    var e := events[w.next];
    assert events[..w.next + 1][..w.next] == events[..w.next];
    forall c ensures UnitsIn(ApplyEvent(w.bal, e), c) == Value(rate, idx, events[..w.next + 1], c, day) {
      assert Growth(rate, idx, e.day, day) == 1.0;
      assert UnitsIn(w.bal, c) == Value(rate, idx, events[..w.next], c, day);
    }
  }

  /** Events up to day are applied, later ones are not. */
  ghost predicate Split(events: seq<Event>, next: nat, day: int) {
    next <= |events| && UpTo(events[..next], day) && forall i | next <= i < |events| :: events[i].day > day
  }

  lemma {:induction false} DayHolds(rate: InterestRate, idx: IndexDB, events: seq<Event>, w: Walk, day: Date)
    requires Sorted(events, EventLess) && Holds(rate, idx, events, w, day)
    requires UpTo(events[..w.next], day) && forall i | w.next <= i < |events| :: events[i].day >= day
    ensures var r := DayEvents(events, w, day); Holds(rate, idx, events, r, day) && Split(events, r.next, day)
    decreases |events| - w.next
  {
    hide Value, Growth, Holds;
    if w.next < |events| && events[w.next].day == day {
      EventHolds(rate, idx, events, w, day);
      assert events[..w.next + 1] == events[..w.next] + [events[w.next]];
      DayHolds(rate, idx, events, Walk(ApplyEvent(w.bal, events[w.next]), w.next + 1), day);
    } else {
      HoldsNext(rate, idx, events, w, day);
      if w.next < |events| {
        forall i | w.next <= i < |events| ensures events[i].day > day {
          assert i > w.next ==> !EventLess(events[i], events[w.next]);
        }
      }
    }
  }

  lemma HoldsNext(rate: InterestRate, idx: IndexDB, events: seq<Event>, w: Walk, day: int)
    requires Holds(rate, idx, events, w, day)
    ensures w.next <= |events|
  {
  }

  lemma InterestHolds(rate: InterestRate, idx: IndexDB, events: seq<Event>, w: Walk, day: Date)
    requires day > 0 && Holds(rate, idx, events, w, day - 1) && UpTo(events[..w.next], day - 1)
    ensures Holds(rate, idx, events, w.(bal := Interest(w.bal, EffectiveRate(rate, idx, day))), day)
  {
    hide Value, Interest, EffectiveRate;
    forall c ensures UnitsIn(Interest(w.bal, EffectiveRate(rate, idx, day)), c)
        == Value(rate, idx, events[..w.next], c, day) {
      InterestIs(w.bal, EffectiveRate(rate, idx, day), c);
      ValueGrows(rate, idx, events[..w.next], c, day);
    }
  }

  /** No event before the open date. */
  predicate AllSince(events: seq<Event>, open: Date) {
    forall i | 0 <= i < |events| :: events[i].day >= open
  }

  lemma {:induction false} WalkHolds(rate: InterestRate, idx: IndexDB, events: seq<Event>, open: Date, day: Date)
    requires Sorted(events, EventLess) && AllSince(events, open) && day >= open
    ensures var w := WalkTo(rate, idx, events, open, day);
            Holds(rate, idx, events, w, day) && Split(events, w.next, day)
    decreases day
  {
    hide Interest, EffectiveRate, DayEvents;
    if day == open {
      var w := Walk(map[], 0);
      assert events[..0] == [];
      DayHolds(rate, idx, events, w, day);
    } else {
      WalkHolds(rate, idx, events, open, day - 1);
      var w := WalkTo(rate, idx, events, open, day - 1);
      InterestHolds(rate, idx, events, w, day);
      DayHolds(rate, idx, events, w.(bal := Interest(w.bal, EffectiveRate(rate, idx, day))), day);
    }
  }

  /** The events the projection takes into account. */
  ghost function Until(events: seq<Event>, day: int): seq<Event> {
    if events == [] then []
    else Until(events[..|events| - 1], day) + (if events[|events| - 1].day <= day then [events[|events| - 1]] else [])
  }

  lemma {:induction false} UntilIsPrefix(events: seq<Event>, next: nat, day: int)
    requires Split(events, next, day)
    ensures Until(events, day) == events[..next]
  {
    if events != [] {
      var earlier := events[..|events| - 1];
      if next == |events| {
        assert earlier[..next - 1] == events[..next][..next - 1];
        UntilIsPrefix(earlier, next - 1, day);
        assert events[..next][next - 1].day <= day;
      } else {
        assert earlier[..next] == events[..next];
        UntilIsPrefix(earlier, next, day);
      }
    }
  }

  /**
    Projection law. With no event before the open date, the projected units of every commodity
    are its closed-form value over the events up to the last projected day.
  */
  lemma ProjectionLaw(account: string, rate: InterestRate, open: Date, closeDate: Option<Date>,
                      dirs: seq<Directive>, idx: IndexDB, asOf: Date, c: string)
    requires AllSince(SortedEvents(account, dirs), open) && LastDay(closeDate, asOf) >= open
    ensures UnitsIn(ProjectedUnits(account, rate, open, closeDate, dirs, idx, asOf), c)
         == Value(rate, idx, Until(SortedEvents(account, dirs), LastDay(closeDate, asOf)), c, LastDay(closeDate, asOf))
  {
    hide Value, WalkDay, Sort, Events;
    var events, day := SortedEvents(account, dirs), LastDay(closeDate, asOf);
    EventsOrdered(Events(account, dirs));
    SortSorted(Events(account, dirs), EventLess, Events(account, dirs));
    WalkHolds(rate, idx, events, open, day);
    UntilIsPrefix(events, WalkTo(rate, idx, events, open, day).next, day);
  }

  /** Otherwise the first event is never reached, nor any later one: nothing is projected. */
  lemma {:induction false} EarlyEventBlocks(rate: InterestRate, idx: IndexDB, events: seq<Event>, open: Date, day: int)
    requires Sorted(events, EventLess) && !AllSince(events, open) && day >= open - 1
    ensures WalkTo(rate, idx, events, open, day) == Walk(map[], 0)
    decreases day - open + 1
  {
    if day >= open {
      EarlyEventBlocks(rate, idx, events, open, day - 1);
      var i :| 0 <= i < |events| && events[i].day < open;
      assert i > 0 ==> !EventLess(events[i], events[0]);
    }
  }

  /** So an event before the open date leaves nothing projected, whatever follows it. */
  lemma ProjectionBlocked(account: string, rate: InterestRate, open: Date, closeDate: Option<Date>,
                          dirs: seq<Directive>, idx: IndexDB, asOf: Date)
    requires !AllSince(SortedEvents(account, dirs), open)
    ensures ProjectedUnits(account, rate, open, closeDate, dirs, idx, asOf) == map[]
  {
    hide WalkTo;
    EventsOrdered(Events(account, dirs));
    SortSorted(Events(account, dirs), EventLess, Events(account, dirs));
    if LastDay(closeDate, asOf) >= open {
      EarlyEventBlocks(rate, idx, SortedEvents(account, dirs), open, LastDay(closeDate, asOf));
    }
  }

  /** Nothing before the last balance on a commodity matters to it. */
  lemma {:induction false} BalanceForgets(rate: InterestRate, idx: IndexDB, p: seq<Event>, q: seq<Event>, b: Event,
        later: seq<Event>, day: int)
    requires b.set_
    ensures Value(rate, idx, p + [b] + later, b.comm, day) == Value(rate, idx, q + [b] + later, b.comm, day)
  {
    if later == [] {
      assert p + [b] + later == p + [b] && q + [b] + later == q + [b];
    } else {
      var e, l := later[|later| - 1], later[..|later| - 1];
      assert (p + [b] + later)[..|p + [b] + later| - 1] == p + [b] + l;
      assert (q + [b] + later)[..|q + [b] + later| - 1] == q + [b] + l;
      BalanceForgets(rate, idx, p, q, b, l, day);
      BalanceForgets(rate, idx, p, q, b, l, e.day);
    }
  }

  // ----- the projection read off the directives, one day after the other

  /** Units of c that numbered postings on the account add. */
  function Posted(ps: seq<Posting>, account: string, c: string): real {
    if ps == [] then 0.0
    else
      var p := ps[|ps| - 1];
      Posted(ps[..|ps| - 1], account, c) +
      match p.units
      case Some(RawAmount(Some(n), comm)) => if p.account == account && comm == c then n else 0.0
      case _ => 0.0
  }

  /** Units of c that the transactions of a day add to the account. */
  function PostedOn(dirs: seq<Directive>, account: string, c: string, day: Date): real {
    if dirs == [] then 0.0
    else
      PostedOn(dirs[..|dirs| - 1], account, c, day) +
      match dirs[|dirs| - 1]
      case Transaction(meta, _, ps) => if meta.date == day then Posted(ps, account, c) else 0.0
      case _ => 0.0
  }

  /** What the last balance of a day on the account asserts in c. */
  function AssertedOn(dirs: seq<Directive>, account: string, c: string, day: Date): Option<real> {
    if dirs == [] then None
    else
      match dirs[|dirs| - 1]
      case Balance(meta, a, amount) =>
        if meta.date == day && a == account && amount.commodity == c then Some(amount.number)
        else AssertedOn(dirs[..|dirs| - 1], account, c, day)
      case _ => AssertedOn(dirs[..|dirs| - 1], account, c, day)
  }

  /** The return of the rate's indicator on a day; a fixed rate has none. */
  function IndexOn(rate: InterestRate, idx: IndexDB, day: Date): real {
    if rate.indicator != "FIXED" && rate.indicator in idx && day in idx[rate.indicator]
    then idx[rate.indicator][day] else 0.0
  }

  /** Units of c at the end of a day: alpha times the index, plus the daily extra, is earned on the units of
      the day before; a balance of the day replaces them; the postings of the day are added. */
  function Daily(account: string, rate: InterestRate, idx: IndexDB, dirs: seq<Directive>, c: string, open: Date,
                 day: int): real
    decreases day - open
  {
    if day < open then 0.0
    else
      var before := Daily(account, rate, idx, dirs, c, open, day - 1);
      var plus := if rate.plusDaily.Some? then rate.plusDaily.value else 0.0;
      var earned := before + before * (rate.alpha * IndexOn(rate, idx, day) + plus);
      (match AssertedOn(dirs, account, c, day) case Some(x) => x case None => earned)
      + PostedOn(dirs, account, c, day)
  }

  /** No numbered posting and no balance on the account before the open date. */
  ghost predicate NothingEarlier(dirs: seq<Directive>, account: string, open: Date) {
    forall i | 0 <= i < |dirs| && dirs[i].meta.date < open ::
      match dirs[i]
      case Transaction(_, _, ps) => forall j | 0 <= j < |ps| && ps[j].account == account && ps[j].units.Some? ::
                                      ps[j].units.value.number.None?
      case Balance(_, a, _) => a != account
      case _ => true
  }

  // The same sums over events.

  function PostedIn(events: seq<Event>, c: string, day: Date): real {
    if events == [] then 0.0
    else
      var e := events[|events| - 1];
      PostedIn(events[..|events| - 1], c, day) + if e.day == day && e.comm == c && !e.set_ then e.amount else 0.0
  }

  function SetIn(events: seq<Event>, c: string, day: Date): Option<real> {
    if events == [] then None
    else
      var e := events[|events| - 1];
      if e.day == day && e.comm == c && e.set_ then Some(e.amount) else SetIn(events[..|events| - 1], c, day)
  }

  lemma {:induction false} InConcat(p: seq<Event>, q: seq<Event>, c: string, day: Date)
    ensures PostedIn(p + q, c, day) == PostedIn(p, c, day) + PostedIn(q, c, day)
    ensures SetIn(p + q, c, day) == if SetIn(q, c, day).Some? then SetIn(q, c, day) else SetIn(p, c, day)
  {
    if q == [] {
      assert p + q == p;
    } else {
      assert (p + q)[..|p + q| - 1] == p + q[..|q| - 1];
      InConcat(p, q[..|q| - 1], c, day);
    }
  }

  lemma {:induction false} PostingsIn(account: string, on: Date, ps: seq<Posting>, c: string, day: Date)
    ensures PostedIn(PostingEvents(account, on, ps), c, day) == if on == day then Posted(ps, account, c) else 0.0
    ensures SetIn(PostingEvents(account, on, ps), c, day).None?
  {
    if ps != [] {
      var p, before := ps[|ps| - 1], PostingEvents(account, on, ps[..|ps| - 1]);
      PostingsIn(account, on, ps[..|ps| - 1], c, day);
      if p.account == account && p.units.Some? && p.units.value.number.Some? {
        var e := Event(on, false, p.units.value.commodity, p.units.value.number.value);
        assert (before + [e])[..|before|] == before;
      } else {
        assert before + [] == before;
      }
    }
  }

  /** The events of the account on a day are its postings and its last balance. */
  lemma {:induction false} EventsIn(account: string, dirs: seq<Directive>, c: string, day: Date)
    ensures PostedIn(Events(account, dirs), c, day) == PostedOn(dirs, account, c, day)
    ensures SetIn(Events(account, dirs), c, day) == AssertedOn(dirs, account, c, day)
  {
    if dirs != [] {
      var d := dirs[|dirs| - 1];
      EventsIn(account, dirs[..|dirs| - 1], c, day);
      InConcat(Events(account, dirs[..|dirs| - 1]), EventsOf(account, d), c, day);
      match d
      case Transaction(meta, _, ps) => PostingsIn(account, meta.date, ps, c, day);
      case Balance(meta, a, amount) =>
        if a == account { assert EventsOf(account, d)[..0] == []; }
      case _ =>
    }
  }

  lemma {:induction false} InsertIn(events: seq<Event>, e: Event, c: string, day: Date)
    ensures PostedIn(Insert(events, e, EventLess), c, day) == PostedIn(events + [e], c, day)
    ensures SetIn(Insert(events, e, EventLess), c, day) == SetIn(events + [e], c, day)
  {
    assert (events + [e])[..|events|] == events;
    if events != [] && EventLess(e, events[|events| - 1]) {
      var n := |events| - 1;
      InsertIn(events[..n], e, c, day);
      assert (events[..n] + [e])[..n] == events[..n];
      var r := Insert(events[..n], e, EventLess);
      assert (r + [events[n]])[..|r|] == r;
    }
  }

  /** Sorting keeps the sums and the last balance of a day. */
  lemma {:induction false} SortIn(events: seq<Event>, c: string, day: Date)
    ensures PostedIn(Sort(events, EventLess), c, day) == PostedIn(events, c, day)
    ensures SetIn(Sort(events, EventLess), c, day) == SetIn(events, c, day)
  {
    if events != [] {
      var n := |events| - 1;
      SortIn(events[..n], c, day);
      var s := Sort(events[..n], EventLess);
      InsertIn(s, events[n], c, day);
      assert (s + [events[n]])[..|s|] == s;
    }
  }

  /** Nothing in later days counts. */
  lemma {:induction false} PrefixIn(events: seq<Event>, n: nat, c: string, day: Date)
    requires n <= |events| && forall i | n <= i < |events| :: events[i].day != day
    ensures PostedIn(events, c, day) == PostedIn(events[..n], c, day)
    ensures SetIn(events, c, day) == SetIn(events[..n], c, day)
    decreases |events|
  {
    if n == |events| {
      assert events[..n] == events;
    } else {
      var last := |events| - 1;
      assert events[..last][..n] == events[..n];
      PrefixIn(events[..last], n, c, day);
    }
  }

  lemma {:induction false} NoneIn(events: seq<Event>, c: string, day: Date)
    requires forall i | 0 <= i < |events| :: events[i].day != day
    ensures PostedIn(events, c, day) == 0.0 && SetIn(events, c, day).None?
  {
    if events != [] { NoneIn(events[..|events| - 1], c, day); }
  }

  lemma {:induction false} NonePosted(events: seq<Event>, c: string, day: Date)
    requires forall i | 0 <= i < |events| :: events[i].day == day ==> events[i].set_
    ensures PostedIn(events, c, day) == 0.0
  {
    if events != [] { NonePosted(events[..|events| - 1], c, day); }
  }

  function OrElse(x: Option<real>, y: real): real {
    if x.Some? then x.value else y
  }

  /** The bookkeeping of a day so far: from x units, the last balance applied, the postings applied. */
  predicate SoFar(events: seq<Event>, w: Walk, day: Date, c: string, x: real) {
    && w.next <= |events|
    && UnitsIn(w.bal, c) == OrElse(SetIn(events[..w.next], c, day), x) + PostedIn(events[..w.next], c, day)
  }

  lemma EventAdds(events: seq<Event>, w: Walk, day: Date, c: string, x: real)
    requires Sorted(events, EventLess) && SoFar(events, w, day, c, x)
    requires w.next < |events| && events[w.next].day == day
    ensures SoFar(events, Walk(ApplyEvent(w.bal, events[w.next]), w.next + 1), day, c, x)
  {
    var e := events[w.next];
    assert events[..w.next + 1][..w.next] == events[..w.next];
    if e.set_ {
      forall i | 0 <= i < w.next ensures events[i].day == day ==> events[i].set_ {
        assert !EventLess(e, events[i]);
      }
      NonePosted(events[..w.next], c, day);
    }
  }

  lemma {:induction false} DayAdds(events: seq<Event>, w: Walk, day: Date, c: string, x: real)
    requires Sorted(events, EventLess) && SoFar(events, w, day, c, x)
    requires UpTo(events[..w.next], day) && forall i | w.next <= i < |events| :: events[i].day >= day
    ensures var r := DayEvents(events, w, day);
            r.next <= |events| && UnitsIn(r.bal, c) == OrElse(SetIn(events, c, day), x) + PostedIn(events, c, day)
    decreases |events| - w.next
  {
    if w.next < |events| && events[w.next].day == day {
      hide SoFar, Sorted;
      EventAdds(events, w, day, c, x);
      assert events[..w.next + 1] == events[..w.next] + [events[w.next]];
      DayAdds(events, Walk(ApplyEvent(w.bal, events[w.next]), w.next + 1), day, c, x);
    } else {
      if w.next < |events| {
        forall i | w.next <= i < |events| ensures events[i].day != day {
          assert i > w.next ==> !EventLess(events[i], events[w.next]);
        }
      }
      PrefixIn(events, w.next, c, day);
    }
  }

  function Earned(x: real, eff: real): real {
    x + x * eff
  }

  /** One day of the walk: interest on what was there, the last balance of the day, its postings. */
  lemma DayUnits(rate: InterestRate, idx: IndexDB, events: seq<Event>, open: Date, w: Walk, day: Date, c: string)
    requires Sorted(events, EventLess) && w.next <= |events|
    requires forall i | 0 <= i < w.next :: events[i].day < day
    requires forall i | w.next <= i < |events| :: events[i].day >= day
    ensures var before := UnitsIn(w.bal, c);
            var earned := if day > open then Earned(before, EffectiveRate(rate, idx, day)) else before;
            UnitsIn(WalkDay(rate, idx, events, open, w, day).bal, c)
            == OrElse(SetIn(events, c, day), earned) + PostedIn(events, c, day)
  {
    hide Sorted, Interest, EffectiveRate, DayEvents, PostedIn, SetIn;
    var before, eff := UnitsIn(w.bal, c), EffectiveRate(rate, idx, day);
    InterestIs(w.bal, eff, c);
    Distribute(before, eff);
    DayFrom(events, if day > open then w.(bal := Interest(w.bal, eff)) else w, day, c);
  }

  lemma DayFrom(events: seq<Event>, w: Walk, day: Date, c: string)
    requires Sorted(events, EventLess) && w.next <= |events|
    requires forall i | 0 <= i < w.next :: events[i].day < day
    requires forall i | w.next <= i < |events| :: events[i].day >= day
    ensures UnitsIn(DayEvents(events, w, day).bal, c)
         == OrElse(SetIn(events, c, day), UnitsIn(w.bal, c)) + PostedIn(events, c, day)
  {
    hide Sorted;
    NoneIn(events[..w.next], c, day);
    DayAdds(events, w, day, c, UnitsIn(w.bal, c));
  }

  lemma DailyNext(account: string, rate: InterestRate, idx: IndexDB, dirs: seq<Directive>, c: string, open: Date,
                  day: Date)
    requires day >= open
    ensures var before := Daily(account, rate, idx, dirs, c, open, day - 1);
            Daily(account, rate, idx, dirs, c, open, day) ==
            OrElse(AssertedOn(dirs, account, c, day), Earned(before, EffectiveRate(rate, idx, day)))
            + PostedOn(dirs, account, c, day)
  {
  }

  /** The walk follows the days. */
  lemma {:induction false} WalkIsDaily(account: string, rate: InterestRate, idx: IndexDB, dirs: seq<Directive>,
                                       c: string, open: Date, day: Date)
    requires AllSince(SortedEvents(account, dirs), open) && day >= open
    ensures UnitsIn(WalkTo(rate, idx, SortedEvents(account, dirs), open, day).bal, c)
         == Daily(account, rate, idx, dirs, c, open, day)
    decreases day
  {
    hide WalkDay, SortedEvents, Sorted, EffectiveRate, Holds;
    var events := SortedEvents(account, dirs);
    SortedSums(account, dirs, c, day);
    DailyNext(account, rate, idx, dirs, c, open, day);
    var w := WalkTo(rate, idx, events, open, day - 1);
    if day == open {
      DayUnits(rate, idx, events, open, w, day, c);
      assert Daily(account, rate, idx, dirs, c, open, day - 1) == 0.0;
      assert Earned(0.0, EffectiveRate(rate, idx, day)) == 0.0;
    } else {
      WalkIsDaily(account, rate, idx, dirs, c, open, day - 1);
      WalkHolds(rate, idx, events, open, day - 1);
      forall i | 0 <= i < w.next ensures events[i].day < day { assert events[..w.next][i] == events[i]; }
      DayUnits(rate, idx, events, open, w, day, c);
    }
    assert WalkTo(rate, idx, events, open, day) == WalkDay(rate, idx, events, open, w, day);
  }

  lemma SortedSums(account: string, dirs: seq<Directive>, c: string, day: Date)
    ensures var events := SortedEvents(account, dirs);
            && Sorted(events, EventLess)
            && PostedIn(events, c, day) == PostedOn(dirs, account, c, day)
            && SetIn(events, c, day) == AssertedOn(dirs, account, c, day)
  {
    hide Sorted;
    EventsOrdered(Events(account, dirs));
    SortSorted(Events(account, dirs), EventLess, Events(account, dirs));
    EventsIn(account, dirs, c, day);
    SortIn(Events(account, dirs), c, day);
  }

  lemma {:induction false} EarlyPostings(account: string, day: Date, ps: seq<Posting>)
    ensures PostingEvents(account, day, ps) == [] <==>
            forall j | 0 <= j < |ps| && ps[j].account == account && ps[j].units.Some? :: ps[j].units.value.number.None?
    ensures forall i | 0 <= i < |PostingEvents(account, day, ps)| :: PostingEvents(account, day, ps)[i].day == day
  {
    if ps != [] { EarlyPostings(account, day, ps[..|ps| - 1]); }
  }

  /** No event is earlier than the open date exactly when no posting and no balance is. */
  lemma {:induction false} EarlyEvents(account: string, dirs: seq<Directive>, open: Date)
    ensures AllSince(Events(account, dirs), open) <==> NothingEarlier(dirs, account, open)
  {
    if dirs != [] {
      var before, d := dirs[..|dirs| - 1], dirs[|dirs| - 1];
      EarlyEvents(account, before, open);
      EarlyEvent(account, d, open);
      SinceConcat(Events(account, before), EventsOf(account, d), open);
      NothingEarlierSnoc(dirs, account, open);
    }
  }

  lemma EarlyEvent(account: string, d: Directive, open: Date)
    ensures AllSince(EventsOf(account, d), open) <==> NothingEarlier([d], account, open)
  {
    assert [d][0] == d;
    match d
    case Transaction(meta, _, ps) =>
      EarlyPostings(account, meta.date, ps);
      if meta.date < open && PostingEvents(account, meta.date, ps) != [] {
        assert PostingEvents(account, meta.date, ps)[0].day < open;
      }
    case Balance(meta, a, amount) =>
      if a == account { assert EventsOf(account, d)[0].day == meta.date; }
    case _ =>
  }

  lemma SinceConcat(p: seq<Event>, q: seq<Event>, open: Date)
    ensures AllSince(p + q, open) <==> AllSince(p, open) && AllSince(q, open)
  {
    if AllSince(p + q, open) {
      forall i | 0 <= i < |p| ensures p[i].day >= open { assert (p + q)[i] == p[i]; }
      forall i | 0 <= i < |q| ensures q[i].day >= open { assert (p + q)[|p| + i] == q[i]; }
    }
  }

  lemma NothingEarlierSnoc(dirs: seq<Directive>, account: string, open: Date)
    requires dirs != []
    ensures NothingEarlier(dirs, account, open) <==>
            NothingEarlier(dirs[..|dirs| - 1], account, open) && NothingEarlier([dirs[|dirs| - 1]], account, open)
  {
    var n := |dirs| - 1;
    assert dirs == dirs[..n] + [dirs[n]];
    if NothingEarlier(dirs, account, open) {
      forall i | 0 <= i < n ensures dirs[..n][i] == dirs[i] {}
      assert [dirs[n]][0] == dirs[n];
    } else if NothingEarlier([dirs[n]], account, open) {
      assert [dirs[n]][0] == dirs[n];
      forall i | 0 <= i < n ensures dirs[..n][i] == dirs[i] {}
    }
  }

  lemma SameSince(events: seq<Event>, open: Date)
    ensures AllSince(Sort(events, EventLess), open) <==> AllSince(events, open)
  {
    hide Sort;
    SortElements(events, EventLess);
    var s := Sort(events, EventLess);
    forall i | 0 <= i < |s| && AllSince(events, open) ensures s[i].day >= open { assert s[i] in events; }
    forall i | 0 <= i < |events| && AllSince(s, open) ensures events[i].day >= open { assert events[i] in s; }
  }

  /**
    What is projected, read off the directives: the units of every commodity follow the days from the
    open date to the last one, which is the day asked for or the day before the close; with a
    posting or balance before the open date, or no such day, nothing is.
  */
  lemma ProjectionIsDaily(account: string, rate: InterestRate, open: Date, closeDate: Option<Date>,
                          dirs: seq<Directive>, idx: IndexDB, asOf: Date, c: string)
    ensures var last := if closeDate.Some? && closeDate.value <= asOf then closeDate.value - 1 else asOf;
            var units := ProjectedUnits(account, rate, open, closeDate, dirs, idx, asOf);
            && UnitsIn(units, c) == (if NothingEarlier(dirs, account, open)
                                     then Daily(account, rate, idx, dirs, c, open, last) else 0.0)
            && (c in units ==> units[c] != 0.0)
  {
    hide WalkTo, Sort, Events, Daily, NothingEarlier, AllSince;
    var last := if closeDate.Some? && closeDate.value <= asOf then closeDate.value - 1 else asOf;
    EarlyEvents(account, dirs, open);
    SameSince(Events(account, dirs), open);
    if !NothingEarlier(dirs, account, open) {
      ProjectionBlocked(account, rate, open, closeDate, dirs, idx, asOf);
    } else if last >= open {
      WalkIsDaily(account, rate, idx, dirs, c, open, last);
    } else {
      DailyBefore(account, rate, idx, dirs, c, open, last);
    }
  }

  lemma DailyBefore(account: string, rate: InterestRate, idx: IndexDB, dirs: seq<Directive>, c: string, open: Date,
                    day: int)
    requires day < open
    ensures Daily(account, rate, idx, dirs, c, open, day) == 0.0
  {
  }

  // ----- the other accounts do not matter

  function OwnPostings(ps: seq<Posting>, account: string): seq<Posting> {
    if ps == [] then []
    else OwnPostings(ps[..|ps| - 1], account) + if ps[|ps| - 1].account == account then [ps[|ps| - 1]] else []
  }

  /** The stream with only this account's postings and balances. */
  function Own(dirs: seq<Directive>, account: string): seq<Directive> {
    if dirs == [] then []
    else
      var d := dirs[|dirs| - 1];
      Own(dirs[..|dirs| - 1], account) +
      match d
      case Transaction(meta, flag, ps) => [Transaction(meta, flag, OwnPostings(ps, account))]
      case Balance(_, a, _) => if a == account then [d] else []
      case _ => [d]
  }

  lemma {:induction false} OwnPostingEvents(account: string, day: Date, ps: seq<Posting>)
    ensures PostingEvents(account, day, OwnPostings(ps, account)) == PostingEvents(account, day, ps)
  {
    if ps != [] {
      var own := OwnPostings(ps[..|ps| - 1], account);
      OwnPostingEvents(account, day, ps[..|ps| - 1]);
      assert (own + [ps[|ps| - 1]])[..|own|] == own && own + [] == own;
    }
  }

  lemma {:induction false} OwnEvents(account: string, dirs: seq<Directive>)
    ensures Events(account, Own(dirs, account)) == Events(account, dirs)
  {
    if dirs != [] {
      var own, d := Own(dirs[..|dirs| - 1], account), dirs[|dirs| - 1];
      OwnEvents(account, dirs[..|dirs| - 1]);
      match d {
        case Transaction(meta, flag, ps) =>
          OwnPostingEvents(account, meta.date, ps);
          var t := Transaction(meta, flag, OwnPostings(ps, account));
          assert (own + [t])[..|own|] == own;
        case _ =>
          assert (own + [d])[..|own|] == own && own + [] == own;
      }
    }
  }

  /** Dropping the postings and balances of other accounts changes nothing projected. */
  lemma OthersDoNotMatter(account: string, rate: InterestRate, open: Date, closeDate: Option<Date>,
                          dirs: seq<Directive>, idx: IndexDB, asOf: Date)
    ensures ProjectedUnits(account, rate, open, closeDate, Own(dirs, account), idx, asOf)
         == ProjectedUnits(account, rate, open, closeDate, dirs, idx, asOf)
  {
    OwnEvents(account, dirs);
  }

  // ----- the program's loops

  method ApplyInterest(bal: Units, eff: real) returns (r: Units)
    ensures r == Interest(bal, eff)
  {
    hide Accrue;
    r := bal;
    if eff == 0.0 { return; }
    var todo := bal.Keys;
    while todo != {}
      invariant todo <= bal.Keys == r.Keys
      invariant forall c | c in bal :: r[c] == if c in todo then bal[c] else Accrue(bal[c], eff)
      decreases |todo|
    {
      var c :| c in todo;
      r := r[c := Accrue(bal[c], eff)];
      todo := todo - {c};
    }
  }

  method CollectPostings(account: string, day: Date, ps: seq<Posting>) returns (events: seq<Event>)
    ensures events == PostingEvents(account, day, ps)
  {
    events := [];
    for i := 0 to |ps|
      invariant events == PostingEvents(account, day, ps[..i])
    {
      assert ps[..i + 1][..i] == ps[..i];
      var p := ps[i];
      if p.account == account && p.units.Some? && p.units.value.number.Some? {
        events := events + [Event(day, false, p.units.value.commodity, p.units.value.number.value)];
      }
    }
    assert ps[..|ps|] == ps;
  }

  method CollectEvents(account: string, dirs: seq<Directive>) returns (events: seq<Event>)
    ensures events == Events(account, dirs)
  {
    hide PostingEvents;
    events := [];
    for i := 0 to |dirs|
      invariant events == Events(account, dirs[..i])
    {
      assert dirs[..i + 1][..i] == dirs[..i];
      match dirs[i] {
        case Transaction(meta, _, postings) =>
          var more := CollectPostings(account, meta.date, postings);
          events := events + more;
        case Balance(meta, a, amount) =>
          if a == account { events := events + [Event(meta.date, true, amount.commodity, amount.number)]; }
        case _ =>
      }
    }
    assert dirs[..|dirs|] == dirs;
  }

  method ApplyDay(events: seq<Event>, w: Walk, day: Date) returns (r: Walk)
    ensures r == DayEvents(events, w, day)
  {
    var bal, ei := w.bal, w.next;
    while ei < |events| && events[ei].day == day
      invariant DayEvents(events, Walk(bal, ei), day) == DayEvents(events, w, day)
      decreases |events| - ei
    {
      bal := ApplyEvent(bal, events[ei]);
      ei := ei + 1;
    }
    r := Walk(bal, ei);
  }

  method Project(account: string, rate: InterestRate, open: Date, closeDate: Option<Date>,
                 dirs: seq<Directive>, idx: IndexDB, asOf: Date) returns (units: Units)
    ensures units == ProjectedUnits(account, rate, open, closeDate, dirs, idx, asOf)
  {
    hide Interest, EffectiveRate, DayEvents, Events, Sort;
    var last: int := asOf;
    if closeDate.Some? && asOf >= closeDate.value { last := closeDate.value - 1; }
    if last < open { return map[]; }
    var events := CollectEvents(account, dirs);
    events := SortedCopy(events, EventLess);
    var w, day := Walk(map[], 0), open;
    while day <= last
      invariant open <= day <= last + 1
      invariant w == WalkTo(rate, idx, events, open, day - 1)
    {
      if day > open {
        var grown := ApplyInterest(w.bal, EffectiveRate(rate, idx, day));
        w := Walk(grown, w.next);
      }
      w := ApplyDay(events, w, day);
      day := day + 1;
    }
    units := map c | c in w.bal && w.bal[c] != 0.0 :: w.bal[c];
  }
}
