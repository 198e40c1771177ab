/** The price database: series sorted in place, against the plain map of last written rates. */
module Prices {
  import opened Ast
  import opened Names
  import opened Sorting

  /** One observation: quote per one base on a date. */
  datatype Point = Point(date: Date, rate: real)

  /** Points by pair key, oldest first. */
  type Series = map<string, seq<Point>>

  function PairKey(base: string, quote: string): string {
    base + "|" + quote
  }

  /** A key cut at its first bar, when both sides are nonempty. */
  function SplitKey(k: string): Option<(string, string)> {
    var i := FirstBar(k);
    if i == |k| || i == 0 || i + 1 == |k| then None else Some((k[..i], k[i + 1..]))
  }

  function FirstBar(k: string): (i: nat)
    ensures i <= |k| && '|' !in k[..i] && (i < |k| ==> k[i] == '|')
  {
    if k == [] then 0
    else if k[0] == '|' then 0
    else
      var j := FirstBar(k[1..]);
      assert k[..j + 1] == [k[0]] + k[1..][..j];
      j + 1
  }

  /** A commodity name: nonempty, without a bar. */
  predicate Clean(name: string) {
    name != "" && '|' !in name
  }

  predicate DateLess(a: Point, b: Point) {
    a.date < b.date
  }

  predicate HasDate(pts: seq<Point>, date: Date) {
    exists i | 0 <= i < |pts| :: pts[i].date == date
  }

  /** Last write wins on a date; a new date is appended and the series re-sorted. */
  function AddPoint(pts: seq<Point>, date: Date, rate: real): seq<Point> {
    if HasDate(pts, date) then Overwrite(pts, date, rate) else Sort(pts + [Point(date, rate)], DateLess)
  }

  /** The first point on the date gets the rate. */
  function Overwrite(pts: seq<Point>, date: Date, rate: real): (r: seq<Point>)
    ensures |r| == |pts|
  {
    if pts == [] then []
    else if pts[0].date == date then [Point(date, rate)] + pts[1..]
    else [pts[0]] + Overwrite(pts[1..], date, rate)
  }

  function PointsOf(s: Series, k: string): seq<Point> {
    if k in s then s[k] else []
  }

  function Add(s: Series, base: string, quote: string, date: Date, rate: real): Series {
    var k := PairKey(base, quote);
    s[k := AddPoint(PointsOf(s, k), date, rate)]
  }

  /** The last point of the series dated on or before asOf. */
  function Latest(pts: seq<Point>, asOf: Date): Option<Point> {
    if pts == [] then None
    else if pts[|pts| - 1].date <= asOf then Some(pts[|pts| - 1])
    else Latest(pts[..|pts| - 1], asOf)
  }

  function Direct(s: Series, base: string, quote: string, asOf: Date): Option<Point> {
    Latest(PointsOf(s, PairKey(base, quote)), asOf)
  }

  function DirectOrInverse(s: Series, base: string, quote: string, asOf: Date): Option<Point> {
    var there, back := Direct(s, base, quote, asOf), Direct(s, quote, base, asOf);
    if there.Some? then there
    else if back.None? || back.value.rate == 0.0 then None
    else Some(Point(back.value.date, 1.0 / back.value.rate))
  }

  /** Every currency that is base or quote of some pair. */
  ghost function Commodities(s: Series): set<string> {
    (set k | k in s && SplitKey(k).Some? :: SplitKey(k).value.0) +
    (set k | k in s && SplitKey(k).Some? :: SplitKey(k).value.1)
  }

  /** m links base to quote in two hops. */
  predicate Links(s: Series, base: string, m: string, quote: string, asOf: Date) {
    m != base && m != quote && DirectOrInverse(s, base, m, asOf).Some? && DirectOrInverse(s, m, quote, asOf).Some?
  }

  function Hop(s: Series, base: string, m: string, quote: string, asOf: Date): Point
    requires Links(s, base, m, quote, asOf)
  {
    Through(DirectOrInverse(s, base, m, asOf).value, DirectOrInverse(s, m, quote, asOf).value)
  }

  /** Two rates in a row: their product, dated at the earlier. */
  function Through(p: Point, q: Point): Point {
    Point(if q.date < p.date then q.date else p.date, p.rate * q.rate)
  }

  ghost function Middles(s: Series, base: string, quote: string, asOf: Date): set<string> {
    set m | m in Commodities(s) && Links(s, base, m, quote, asOf)
  }

  /** Quote per one base: the pair, else its inverse, else through the least linking commodity. */
  ghost function Rate(s: Series, base: string, quote: string, asOf: Date): Option<Point> {
    if base == quote then Some(Point(asOf, 1.0))
    else if DirectOrInverse(s, base, quote, asOf).Some? then DirectOrInverse(s, base, quote, asOf)
    else if Middles(s, base, quote, asOf) == {} then None
    else Some(Hop(s, base, Min(Middles(s, base, quote, asOf)), quote, asOf))
  }

  // ----- a series is the map of last written rates

  datatype Quote = Quote(base: string, quote: string, date: Date, rate: real)

  function Load(log: seq<Quote>): Series {
    if log == [] then map[]
    else
      var q := log[|log| - 1];
      Add(Load(log[..|log| - 1]), q.base, q.quote, q.date, q.rate)
  }

  /** The last rate written for each date of a pair. */
  function Written(log: seq<Quote>, k: string): map<Date, real> {
    if log == [] then map[]
    else
      var q, m := log[|log| - 1], Written(log[..|log| - 1], k);
      if PairKey(q.base, q.quote) == k then m[q.date := q.rate] else m
  }

  ghost predicate Increasing(pts: seq<Point>) {
    forall i, j | 0 <= i < j < |pts| :: pts[i].date < pts[j].date
  }

  /** The points are increasing in date and are exactly the entries of m. */
  ghost predicate Lists(pts: seq<Point>, m: map<Date, real>) {
    && Increasing(pts)
    && (forall i | 0 <= i < |pts| :: pts[i].date in m && m[pts[i].date] == pts[i].rate)
    && (forall d | d in m :: HasDate(pts, d))
  }

  lemma {:induction false} OverwriteAt(pts: seq<Point>, date: Date, rate: real, i: nat)
    requires Increasing(pts) && i < |pts| && pts[i].date == date
    ensures Overwrite(pts, date, rate) == pts[i := Point(date, rate)]
  {
    if i == 0 {
    } else {
      assert pts[0].date < pts[i].date;
      OverwriteAt(pts[1..], date, rate, i - 1);
    }
  }

  lemma OverwriteLists(pts: seq<Point>, m: map<Date, real>, date: Date, rate: real)
    requires Lists(pts, m) && HasDate(pts, date)
    ensures Lists(Overwrite(pts, date, rate), m[date := rate])
  {
    hide Overwrite;
    var i :| 0 <= i < |pts| && pts[i].date == date;
    OverwriteAt(pts, date, rate, i);
    var r := pts[i := Point(date, rate)];
    assert forall j | 0 <= j < |pts| :: r[j].date == pts[j].date;
    forall d | d in m[date := rate] ensures HasDate(r, d) {
      assert d in m by { if d == date { assert pts[i].date in m; } }
      var j :| 0 <= j < |pts| && pts[j].date == d;
      assert r[j].date == d;
    }
  }

  lemma DatesOrdered(pts: seq<Point>)
    ensures WeakOrder(pts, DateLess)
  {
  }

  lemma InsertedIncreasing(pts: seq<Point>, p: Point)
    requires Increasing(pts) && !HasDate(pts, p.date)
    ensures Increasing(Sort(pts + [p], DateLess))
  {
    hide Sort;
    var r := Sort(pts + [p], DateLess);
    DatesOrdered(pts + [p]);
    SortSorted(pts + [p], DateLess, pts + [p]);
    SortElements(pts + [p], DateLess);
    assert Distinct(pts + [p]);
    SortDistinct(pts + [p], DateLess);
    forall i, j | 0 <= i < j < |r| ensures r[i].date < r[j].date {
      assert r[i] in pts + [p] && r[j] in pts + [p];
      assert r[i] != r[j] && !DateLess(r[j], r[i]);
    }
  }

  lemma InsertLists(pts: seq<Point>, m: map<Date, real>, date: Date, rate: real)
    requires Lists(pts, m) && !HasDate(pts, date)
    ensures Lists(Sort(pts + [Point(date, rate)], DateLess), m[date := rate])
  {
    hide Sort;
    var p, r := Point(date, rate), Sort(pts + [Point(date, rate)], DateLess);
    InsertedIncreasing(pts, p);
    SortElements(pts + [p], DateLess);
    forall i | 0 <= i < |r| ensures r[i].date in m[date := rate] && m[date := rate][r[i].date] == r[i].rate {
      assert r[i] in pts + [p];
      if r[i] in pts { var j :| 0 <= j < |pts| && pts[j] == r[i]; }
    }
    forall d | d in m[date := rate] ensures HasDate(r, d) {
      if d == date {
        assert p in pts + [p];
        var j :| 0 <= j < |r| && r[j] == p;
      } else {
        var i :| 0 <= i < |pts| && pts[i].date == d;
        assert pts[i] in pts + [p];
        var j :| 0 <= j < |r| && r[j] == pts[i];
      }
    }
  }

  /**
    After any sequence of adds, the series of a pair lists the last written rate of each date,
    dates strictly increasing.
  */
  lemma {:induction false} SeriesListsWritten(log: seq<Quote>, k: string)
    ensures Lists(PointsOf(Load(log), k), Written(log, k))
  {
    hide AddPoint, Lists;
    if log == [] {
      ListsNothing();
    } else {
      var log', q := log[..|log| - 1], log[|log| - 1];
      SeriesListsWritten(log', k);
      if PairKey(q.base, q.quote) == k { AddPointLists(PointsOf(Load(log'), k), Written(log', k), q.date, q.rate); }
    }
  }

  lemma ListsNothing()
    ensures Lists([], map[])
  {
  }

  lemma AddPointLists(pts: seq<Point>, m: map<Date, real>, date: Date, rate: real)
    requires Lists(pts, m)
    ensures Lists(AddPoint(pts, date, rate), m[date := rate])
  {
    if HasDate(pts, date) { OverwriteLists(pts, m, date, rate); } else { InsertLists(pts, m, date, rate); }
  }

  lemma {:induction false} LatestIs(pts: seq<Point>, asOf: Date)
    requires Increasing(pts)
    ensures var r := Latest(pts, asOf);
            if r.None? then forall i | 0 <= i < |pts| :: pts[i].date > asOf
            else
              exists i | 0 <= i < |pts| ::
                pts[i] == r.value && pts[i].date <= asOf && forall j | i < j < |pts| :: pts[j].date > asOf
  {
    if pts != [] && pts[|pts| - 1].date > asOf {
      var n := |pts| - 1;
      LatestIs(pts[..n], asOf);
      if Latest(pts, asOf).Some? {
        var i :| 0 <= i < n && pts[..n][i] == Latest(pts, asOf).value && pts[..n][i].date <= asOf
            && forall j | i < j < n :: pts[..n][j].date > asOf;
        forall j | i < j < |pts| ensures pts[j].date > asOf { assert j < n ==> pts[..n][j] == pts[j]; }
      } else {
        forall i | 0 <= i < |pts| ensures pts[i].date > asOf { assert i < n ==> pts[..n][i] == pts[i]; }
      }
    }
  }

  /** date is the greatest of the keys of m that are on or before asOf. */
  predicate Greatest(m: map<Date, real>, date: Date, asOf: Date) {
    date in m && date <= asOf && forall d | d in m && d <= asOf :: d <= date
  }

  /**
    A direct lookup returns the last written rate at the greatest date on or before asOf, and
    nothing exactly when nothing was written by then.
  */
  lemma DirectIsLastWritten(log: seq<Quote>, base: string, quote: string, asOf: Date)
    ensures var m, r := Written(log, PairKey(base, quote)), Direct(Load(log), base, quote, asOf);
            if r.None? then forall d | d in m :: d > asOf
            else Greatest(m, r.value.date, asOf) && m[r.value.date] == r.value.rate
  {
    hide Load, Written, Latest;
    var k := PairKey(base, quote);
    var pts, m, r := PointsOf(Load(log), k), Written(log, k), Direct(Load(log), base, quote, asOf);
    SeriesListsWritten(log, k);
    LatestIs(pts, asOf);
    if r.None? {
      forall d | d in m ensures d > asOf { var i :| 0 <= i < |pts| && pts[i].date == d; }
    } else {
      var i :| 0 <= i < |pts| && pts[i] == r.value && pts[i].date <= asOf
          && forall j | i < j < |pts| :: pts[j].date > asOf;
      forall d | d in m && d <= asOf ensures d <= r.value.date { var j :| 0 <= j < |pts| && pts[j].date == d; }
    }
  }

  // ----- a later price never changes an earlier rate

  /** Every key is a pair of clean names, and its points are increasing. */
  ghost predicate Sound(s: Series) {
    forall k | k in s :: Increasing(s[k]) && exists b, q :: CleanPair(k, b, q)
  }

  predicate CleanPair(k: string, b: string, q: string) {
    Clean(b) && Clean(q) && k == PairKey(b, q)
  }

  lemma PairKeyInjective(b: string, q: string, x: string, y: string)
    requires Clean(x) && Clean(y) && PairKey(b, q) == PairKey(x, y)
    ensures b == x && q == y
  {
    var k := PairKey(x, y);
    assert k[|x|] == '|' && PairKey(b, q)[|b|] == '|';
    assert forall i | 0 <= i < |k| && i != |x| :: k[i] != '|' by {
      forall i | 0 <= i < |k| && i != |x| ensures k[i] != '|' {
        if i < |x| { assert k[i] == x[i] && x[i] in x; } else { assert k[i] == y[i - |x| - 1] && y[i - |x| - 1] in y; }
      }
    }
    assert |b| == |x|;
    assert b == PairKey(b, q)[..|b|] && x == k[..|x|];
    assert q == PairKey(b, q)[|b| + 1..] && y == k[|x| + 1..];
  }

  lemma {:induction false} BarAt(k: string, i: nat)
    requires i < |k| && k[i] == '|' && forall j | 0 <= j < i :: k[j] != '|'
    ensures FirstBar(k) == i
  {
    if i > 0 {
      assert k[0] != '|';
      BarAt(k[1..], i - 1);
    }
  }

  lemma SplitPair(b: string, q: string)
    requires Clean(b) && Clean(q)
    ensures SplitKey(PairKey(b, q)) == Some((b, q))
  {
    hide FirstBar;
    var k := PairKey(b, q);
    forall j | 0 <= j < |b| ensures k[j] != '|' { assert k[j] == b[j] && b[j] in b; }
    BarAt(k, |b|);
    assert k[..|b|] == b && k[|b| + 1..] == q;
  }

  /** A pair with points names two commodities of the database. */
  lemma PairCommodities(s: Series, b: string, q: string)
    requires Sound(s) && PairKey(b, q) in s
    ensures b in Commodities(s) && q in Commodities(s)
  {
    hide SplitKey;
    var k := PairKey(b, q);
    var x, y :| CleanPair(k, x, y);
    PairKeyInjective(b, q, x, y);
    SplitPair(b, q);
  }

  lemma LinkKnown(s: Series, b: string, q: string, asOf: Date)
    requires Sound(s) && DirectOrInverse(s, b, q, asOf).Some?
    ensures b in Commodities(s) && q in Commodities(s)
  {
    hide Sound, Commodities;
    if PairKey(b, q) in s { PairCommodities(s, b, q); } else { PairCommodities(s, q, b); }
  }

  lemma LatestSame(pts: seq<Point>, date: Date, rate: real, asOf: Date)
    requires Increasing(pts) && date > asOf
    ensures Latest(AddPoint(pts, date, rate), asOf) == Latest(pts, asOf)
  {
    if HasDate(pts, date) {
      var i :| 0 <= i < |pts| && pts[i].date == date;
      OverwriteAt(pts, date, rate, i);
      LatestUpdated(pts, i, Point(date, rate), asOf);
    } else {
      LatestInserted(pts, Point(date, rate), asOf);
    }
  }

  lemma {:induction false} LatestUpdated(pts: seq<Point>, i: nat, p: Point, asOf: Date)
    requires i < |pts| && pts[i].date == p.date > asOf
    ensures Latest(pts[i := p], asOf) == Latest(pts, asOf)
  {
    var n := |pts| - 1;
    if i == n {
      assert pts[i := p][..n] == pts[..n];
    } else {
      assert pts[i := p][..n] == pts[..n][i := p];
      if pts[n].date > asOf { LatestUpdated(pts[..n], i, p, asOf); }
    }
  }

  lemma {:induction false} SortIncreasing(pts: seq<Point>)
    requires Increasing(pts)
    ensures Sort(pts, DateLess) == pts
  {
    if pts != [] {
      var n := |pts| - 1;
      SortIncreasing(pts[..n]);
      assert pts == pts[..n] + [pts[n]];
      assert n > 0 ==> pts[..n][n - 1].date < pts[n].date;
      assert Sort(pts, DateLess) == Insert(pts[..n], pts[n], DateLess);
    }
  }

  lemma {:induction false} InsertLatest(pts: seq<Point>, p: Point, asOf: Date)
    requires Increasing(pts) && p.date > asOf
    ensures Latest(Insert(pts, p, DateLess), asOf) == Latest(pts, asOf)
  {
    if pts == [] || !DateLess(p, pts[|pts| - 1]) {
      assert (pts + [p])[..|pts|] == pts;
    } else {
      var n := |pts| - 1;
      InsertLatest(pts[..n], p, asOf);
      var r := Insert(pts[..n], p, DateLess);
      assert (r + [pts[n]])[..|r|] == r;
    }
  }

  lemma LatestInserted(pts: seq<Point>, p: Point, asOf: Date)
    requires Increasing(pts) && p.date > asOf
    ensures Latest(Sort(pts + [p], DateLess), asOf) == Latest(pts, asOf)
  {
    SortSnoc(pts, p, DateLess);
    SortIncreasing(pts);
    InsertLatest(pts, p, asOf);
  }

  lemma DirectSame(s: Series, b: string, q: string, date: Date, rate: real, x: string, y: string, asOf: Date)
    requires Sound(s) && date > asOf
    ensures Direct(Add(s, b, q, date, rate), x, y, asOf) == Direct(s, x, y, asOf)
  {
    hide AddPoint, Latest;
    if PairKey(x, y) == PairKey(b, q) { LatestSame(PointsOf(s, PairKey(b, q)), date, rate, asOf); }
  }

  /** A later add changes no link, so the linking commodities stay the same. */
  lemma MiddlesSame(s: Series, b: string, q: string, date: Date, rate: real, x: string, y: string, asOf: Date)
    requires Sound(s) && date > asOf && Clean(b) && Clean(q)
    ensures Middles(Add(s, b, q, date, rate), x, y, asOf) == Middles(s, x, y, asOf)
    ensures forall m :: Links(Add(s, b, q, date, rate), x, m, y, asOf) == Links(s, x, m, y, asOf)
  {
    hide Add, Direct, SplitKey, Sound;
    var s' := Add(s, b, q, date, rate);
    forall m ensures Links(s', x, m, y, asOf) == Links(s, x, m, y, asOf) {
      DirectSame(s, b, q, date, rate, x, m, asOf);
      DirectSame(s, b, q, date, rate, m, x, asOf);
      DirectSame(s, b, q, date, rate, m, y, asOf);
      DirectSame(s, b, q, date, rate, y, m, asOf);
    }
    AddKeys(s, b, q, date, rate);
    forall m ensures m in Middles(s', x, y, asOf) <==> m in Middles(s, x, y, asOf) {
      if Links(s, x, m, y, asOf) { LinkKnown(s, x, m, asOf); }
    }
  }

  lemma AddKeys(s: Series, b: string, q: string, date: Date, rate: real)
    ensures Commodities(s) <= Commodities(Add(s, b, q, date, rate))
  {
    hide SplitKey, AddPoint;
  }

  /** A price dated after asOf never changes any rate as of asOf, hops included. */
  lemma LaterPriceInvisible(s: Series, b: string, q: string, date: Date, rate: real, x: string, y: string, asOf: Date)
    requires Sound(s) && date > asOf && Clean(b) && Clean(q)
    ensures Rate(Add(s, b, q, date, rate), x, y, asOf) == Rate(s, x, y, asOf)
  {
    hide Add, Direct, Sound, Middles, Through;
    var s' := Add(s, b, q, date, rate);
    DirectSame(s, b, q, date, rate, x, y, asOf);
    DirectSame(s, b, q, date, rate, y, x, asOf);
    MiddlesSame(s, b, q, date, rate, x, y, asOf);
    var ms := Middles(s, x, y, asOf);
    if ms != {} {
      var m := Min(ms);
      MiddleLinks(s, x, y, asOf, m);
      DirectSame(s, b, q, date, rate, x, m, asOf);
      DirectSame(s, b, q, date, rate, m, x, asOf);
      DirectSame(s, b, q, date, rate, m, y, asOf);
      DirectSame(s, b, q, date, rate, y, m, asOf);
    }
  }

  lemma MiddleLinks(s: Series, x: string, y: string, asOf: Date, m: string)
    requires m in Middles(s, x, y, asOf)
    ensures Links(s, x, m, y, asOf)
  {
  }

  lemma {:induction false} LoadSound(log: seq<Quote>)
    requires forall i | 0 <= i < |log| :: Clean(log[i].base) && Clean(log[i].quote)
    ensures Sound(Load(log))
  {
    if log != [] {
      var q, s := log[|log| - 1], Load(log[..|log| - 1]);
      LoadSound(log[..|log| - 1]);
      var k := PairKey(q.base, q.quote);
      assert CleanPair(k, q.base, q.quote);
      SeriesListsWritten(log, k);
    }
  }

  /** Every loaded database of clean names: prices after asOf can be dropped or added at will. */
  lemma {:induction false} LaterQuotesInvisible(log: seq<Quote>, later: seq<Quote>, x: string, y: string, asOf: Date)
    requires forall i | 0 <= i < |log| :: Clean(log[i].base) && Clean(log[i].quote)
    requires forall i | 0 <= i < |later| :: Clean(later[i].base) && Clean(later[i].quote) && later[i].date > asOf
    ensures Rate(Load(log + later), x, y, asOf) == Rate(Load(log), x, y, asOf)
    decreases |later|
  {
    hide Rate, Add, Sound;
    if later == [] {
      assert log + later == log;
    } else {
      var q, later' := later[|later| - 1], later[..|later| - 1];
      assert (log + later)[..|log + later| - 1] == log + later';
      LaterQuotesInvisible(log, later', x, y, asOf);
      LoadSound(log + later');
      LaterPriceInvisible(Load(log + later'), q.base, q.quote, q.date, q.rate, x, y, asOf);
    }
  }

  // ----- rates there and back

  /** Each pair is quoted in one direction only, and never at zero. */
  ghost predicate OneDirection(s: Series) {
    && (forall b, q :: b != q ==> !(PairKey(b, q) in s && PairKey(q, b) in s))
    && (forall k, i | k in s && 0 <= i < |s[k]| :: s[k][i].rate != 0.0)
  }

  lemma {:induction false} LatestIn(pts: seq<Point>, asOf: Date)
    ensures Latest(pts, asOf).Some? ==> exists i | 0 <= i < |pts| :: pts[i] == Latest(pts, asOf).value
  {
    if pts != [] && pts[|pts| - 1].date > asOf { LatestIn(pts[..|pts| - 1], asOf); }
  }

  predicate Reciprocal(p: Option<Point>, q: Option<Point>) {
    (p.Some? <==> q.Some?) && (p.Some? ==> p.value.rate * q.value.rate == 1.0 && p.value.date == q.value.date)
  }

  lemma Inverse(r: real)
    requires r != 0.0
    ensures r * (1.0 / r) == 1.0 && 1.0 / r != 0.0
  {
  }

  lemma DirectReciprocal(s: Series, x: string, y: string, asOf: Date)
    requires OneDirection(s) && x != y
    ensures Reciprocal(DirectOrInverse(s, x, y, asOf), DirectOrInverse(s, y, x, asOf))
  {
    hide Latest;
    LatestIn(PointsOf(s, PairKey(x, y)), asOf);
    LatestIn(PointsOf(s, PairKey(y, x)), asOf);
    var p, q := Direct(s, x, y, asOf), Direct(s, y, x, asOf);
    LatestOfNone(asOf);
    if p.Some? { Inverse(p.value.rate); }
    if q.Some? { Inverse(q.value.rate); }
  }

  lemma LatestOfNone(asOf: Date)
    ensures Latest([], asOf) == None
  {
  }

  lemma LinksBothWays(s: Series, x: string, y: string, asOf: Date)
    requires OneDirection(s)
    ensures Middles(s, x, y, asOf) == Middles(s, y, x, asOf)
  {
    hide OneDirection, DirectOrInverse;
    forall m | m != x && m != y ensures Links(s, x, m, y, asOf) <==> Links(s, y, m, x, asOf) {
      DirectReciprocal(s, x, m, asOf);
      DirectReciprocal(s, m, y, asOf);
    }
  }

  lemma Products(a: real, b: real, c: real, d: real)
    requires a * d == 1.0 && b * c == 1.0
    ensures (a * b) * (c * d) == 1.0
  {
    assert (a * b) * (c * d) == (a * d) * (b * c);
  }

  /** With one direction per pair and no zero rates, a rate and its reverse multiply to one, through a hop too. */
  lemma RatesAreReciprocal(s: Series, x: string, y: string, asOf: Date)
    requires OneDirection(s)
    ensures Reciprocal(Rate(s, x, y, asOf), Rate(s, y, x, asOf))
  {
    hide OneDirection, DirectOrInverse, Middles;
    if x != y {
      DirectReciprocal(s, x, y, asOf);
      LinksBothWays(s, x, y, asOf);
      if DirectOrInverse(s, x, y, asOf).None? && Middles(s, x, y, asOf) != {} {
        HopsReciprocal(s, x, Min(Middles(s, x, y, asOf)), y, asOf);
      }
    }
  }

  lemma HopsReciprocal(s: Series, x: string, m: string, y: string, asOf: Date)
    requires OneDirection(s) && m in Middles(s, x, y, asOf)
    ensures Links(s, x, m, y, asOf) && Links(s, y, m, x, asOf)
    ensures Hop(s, x, m, y, asOf).rate * Hop(s, y, m, x, asOf).rate == 1.0
    ensures Hop(s, x, m, y, asOf).date == Hop(s, y, m, x, asOf).date
  {
    hide OneDirection, DirectOrInverse;
    DirectReciprocal(s, x, m, asOf);
    DirectReciprocal(s, m, y, asOf);
    Products(DirectOrInverse(s, x, m, asOf).value.rate, DirectOrInverse(s, m, y, asOf).value.rate,
             DirectOrInverse(s, y, m, asOf).value.rate, DirectOrInverse(s, m, x, asOf).value.rate);
  }

  // ----- the program's database

  class DB {
    var series: Series

    constructor ()
      ensures series == map[]
    {
      series := map[];
    }

    method AddRate(base: string, quote: string, date: Date, rate: real)
      modifies this
      ensures series == Add(old(series), base, quote, date, rate)
    {
      var k := PairKey(base, quote);
      var pts := if k in series then series[k] else [];
      for i := 0 to |pts|
        invariant forall j | 0 <= j < i :: pts[j].date != date
        invariant series == old(series)
      {
        if pts[i].date == date {
          FirstOnDate(pts, i, date, rate);
          series := series[k := pts[i := Point(date, rate)]];
          return;
        }
      }
      var sorted := SortedCopy(pts + [Point(date, rate)], DateLess);
      series := series[k := sorted];
    }

    method DirectRate(base: string, quote: string, asOf: Date) returns (best: Option<Point>)
      ensures best == Direct(series, base, quote, asOf)
    {
      var k := PairKey(base, quote);
      var pts := if k in series then series[k] else [];
      best := None;
      for i := 0 to |pts|
        invariant best == Latest(pts[..i], asOf)
      {
        assert pts[..i + 1][..i] == pts[..i];
        if pts[i].date <= asOf { best := Some(pts[i]); }
      }
      assert pts[..|pts|] == pts;
    }

    method DirectOrInverseRate(base: string, quote: string, asOf: Date) returns (p: Option<Point>)
      ensures p == DirectOrInverse(series, base, quote, asOf)
    {
      p := DirectRate(base, quote, asOf);
      if p.Some? { return; }
      p := DirectRate(quote, base, asOf);
      if p.Some? {
        if p.value.rate == 0.0 { return None; }
        p := Some(Point(p.value.date, 1.0 / p.value.rate));
      }
    }

    method ListCommodities() returns (names: seq<string>)
      ensures names == Listing(Commodities(series))
    {
      hide SplitKey;
      var seen, todo := {}, series.Keys;
      while todo != {}
        invariant todo <= series.Keys
        invariant forall c :: c in seen <==> exists k :: k in series && k !in todo && Mentions(k, c)
        decreases |todo|
      {
        var k :| k in todo;
        todo := todo - {k};
        ghost var before := seen;
        var pair := SplitKey(k);
        if pair.Some? { seen := seen + {pair.value.0, pair.value.1}; }
        forall c ensures c in seen <==> exists j :: j in series && j !in todo && Mentions(j, c) {
          if c in seen && c !in before { assert Mentions(k, c); }
        }
      }
      assert forall c :: c in seen <==> c in Commodities(series) by {
        forall c ensures c in seen <==> c in Commodities(series) {
          if c in seen { var k :| k in series && k !in todo && Mentions(k, c); }
          if c in Commodities(series) { var k :| k in series && Mentions(k, c); }
        }
      }
      assert seen == Commodities(series);
      names := List(seen);
    }

    method RateOf(base: string, quote: string, asOf: Date) returns (p: Option<Point>)
      ensures p == Rate(series, base, quote, asOf)
    {
      hide DirectOrInverse, Commodities;
      if base == quote { return Some(Point(asOf, 1.0)); }
      p := DirectOrInverseRate(base, quote, asOf);
      if p.Some? { return; }
      var names := ListCommodities();
      ListingLists(Commodities(series));
      for i := 0 to |names|
        invariant forall j | 0 <= j < i :: !Links(series, base, names[j], quote, asOf)
      {
        var m := names[i];
        if m != base && m != quote {
          var first := DirectOrInverseRate(base, m, asOf);
          if first.Some? {
            var second := DirectOrInverseRate(m, quote, asOf);
            if second.Some? {
              LeastMiddle(series, base, quote, asOf, names, i);
              return Some(Through(first.value, second.value));
            }
          }
        }
      }
      p := None;
      assert Middles(series, base, quote, asOf) == {} by {
        forall m | m in Commodities(series) ensures !Links(series, base, m, quote, asOf) {
          assert m in names;
          var j :| 0 <= j < |names| && names[j] == m;
        }
      }
    }
  }

  predicate Mentions(k: string, c: string) {
    SplitKey(k).Some? && (c == SplitKey(k).value.0 || c == SplitKey(k).value.1)
  }

  lemma {:induction false} FirstOnDate(pts: seq<Point>, i: nat, date: Date, rate: real)
    requires i < |pts| && pts[i].date == date && forall j | 0 <= j < i :: pts[j].date != date
    ensures HasDate(pts, date) && Overwrite(pts, date, rate) == pts[i := Point(date, rate)]
  {
    if i > 0 {
      FirstOnDate(pts[1..], i - 1, date, rate);
    }
  }

  /** The first linking commodity in order is the least one. */
  lemma LeastMiddle(s: Series, base: string, quote: string, asOf: Date, names: seq<string>, i: nat)
    requires Ascending(names) && (forall c :: c in names <==> c in Commodities(s))
    requires i < |names| && Links(s, base, names[i], quote, asOf)
    requires forall j | 0 <= j < i :: !Links(s, base, names[j], quote, asOf)
    ensures names[i] in Middles(s, base, quote, asOf) && Min(Middles(s, base, quote, asOf)) == names[i]
  {
    hide Links, Commodities;
    var ms := Middles(s, base, quote, asOf);
    assert names[i] in names;
    assert names[i] in ms by { MiddleIn(s, base, quote, asOf, names[i]); }
    forall m | m in ms ensures m == names[i] || NameLess(names[i], m) {
      MiddleLinks(s, base, quote, asOf, m);
      MiddleKnown(s, base, quote, asOf, m);
      var j :| 0 <= j < |names| && names[j] == m;
    }
    LeastUnique(ms, names[i], Min(ms));
  }

  lemma MiddleIn(s: Series, base: string, quote: string, asOf: Date, m: string)
    requires m in Commodities(s) && Links(s, base, m, quote, asOf)
    ensures m in Middles(s, base, quote, asOf)
  {
  }

  lemma MiddleKnown(s: Series, base: string, quote: string, asOf: Date, m: string)
    requires m in Middles(s, base, quote, asOf)
    ensures m in Commodities(s)
  {
  }
}
