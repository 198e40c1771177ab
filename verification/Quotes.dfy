/** Rates read off the written prices: the last quote, its inverse, or two quotes in a row. */
module Quotes {
  import opened Ast
  import opened Names
  import opened Prices

  ghost predicate CleanLog(log: seq<Quote>) {
    forall i | 0 <= i < |log| :: Clean(log[i].base) && Clean(log[i].quote)
  }

  predicate Quotes(q: Quote, base: string, quote: string, asOf: Date) {
    q.base == base && q.quote == quote && q.date <= asOf
  }

  /** The price written at place i is the newest of the pair by asOf; of one day the last written. */
  ghost predicate LastQuote(log: seq<Quote>, base: string, quote: string, asOf: Date, i: int) {
    && 0 <= i < |log| && Quotes(log[i], base, quote, asOf)
    && forall j | 0 <= j < |log| && Quotes(log[j], base, quote, asOf) ::
         log[j].date < log[i].date || (log[j].date == log[i].date && j <= i)
  }

  ghost predicate Unquoted(log: seq<Quote>, base: string, quote: string, asOf: Date) {
    forall i | 0 <= i < |log| :: !Quotes(log[i], base, quote, asOf)
  }

  /** What the pair is quoted at: its own last quote, or one over the last nonzero quote of the reverse. */
  ghost predicate QuotedAt(log: seq<Quote>, base: string, quote: string, asOf: Date, day: Date, rate: real) {
    || (exists i :: LastQuote(log, base, quote, asOf, i) && log[i].date == day && log[i].rate == rate)
    || (Unquoted(log, base, quote, asOf)
        && exists i :: LastQuote(log, quote, base, asOf, i) && log[i].date == day && log[i].rate * rate == 1.0)
  }

  ghost predicate Quoted(log: seq<Quote>, base: string, quote: string, asOf: Date) {
    exists day, rate :: QuotedAt(log, base, quote, asOf, day, rate)
  }

  /** m leads from base to quote. */
  ghost predicate LeadsOver(log: seq<Quote>, base: string, m: string, quote: string, asOf: Date) {
    m != base && m != quote && Quoted(log, base, m, asOf) && Quoted(log, m, quote, asOf)
  }

  ghost predicate LeastOver(log: seq<Quote>, base: string, m: string, quote: string, asOf: Date) {
    && LeadsOver(log, base, m, quote, asOf)
    && forall n | LeadsOver(log, base, n, quote, asOf) :: n == m || NameLess(m, n)
  }

  /** Two quotes in a row: the product of their rates, at the earlier of their days. */
  ghost predicate Chained(log: seq<Quote>, base: string, m: string, quote: string, asOf: Date, day: Date, rate: real) {
    exists d: Date, x: real, e: Date, y: real ::
      && QuotedAt(log, base, m, asOf, d, x) && QuotedAt(log, m, quote, asOf, e, y)
      && rate == x * y && day == if e < d then e else d
  }

  /** The rate between two commodities: one for the same, else their quote, else over the least commodity
      that leads from the first to the second. */
  ghost predicate RatedAt(log: seq<Quote>, base: string, quote: string, asOf: Date, day: Date, rate: real) {
    if base == quote then day == asOf && rate == 1.0
    else if Quoted(log, base, quote, asOf) then QuotedAt(log, base, quote, asOf, day, rate)
    else exists m :: LeastOver(log, base, m, quote, asOf) && Chained(log, base, m, quote, asOf, day, rate)
  }

  ghost predicate Rated(log: seq<Quote>, base: string, quote: string, asOf: Date) {
    exists day, rate :: RatedAt(log, base, quote, asOf, day, rate)
  }

  // ----- the series hold the last quotes

  ghost predicate WritesOn(log: seq<Quote>, base: string, quote: string, day: Date, i: int) {
    0 <= i < |log| && log[i].base == base && log[i].quote == quote && log[i].date == day
  }

  lemma {:induction false} WrittenIsLast(log: seq<Quote>, base: string, quote: string, day: Date)
    requires CleanLog(log)
    ensures var m := Written(log, PairKey(base, quote));
            && (day in m <==> exists i :: WritesOn(log, base, quote, day, i))
            && forall i | WritesOn(log, base, quote, day, i)
                          && forall j | i < j :: !WritesOn(log, base, quote, day, j) ::
                 m[day] == log[i].rate
  {
    hide PairKey, Clean;
    if log != [] {
      var n := |log| - 1;
      var before, q := log[..n], log[n];
      WrittenIsLast(before, base, quote, day);
      if PairKey(q.base, q.quote) == PairKey(base, quote) { PairKeyInjective(base, quote, q.base, q.quote); }
      forall i | 0 <= i < n ensures WritesOn(before, base, quote, day, i) <==> WritesOn(log, base, quote, day, i) {
      }
      if exists i :: WritesOn(log, base, quote, day, i) && i < n {
        var i :| WritesOn(log, base, quote, day, i) && i < n;
        assert WritesOn(before, base, quote, day, i);
      }
      if exists i :: WritesOn(before, base, quote, day, i) {
        var i :| WritesOn(before, base, quote, day, i);
        assert WritesOn(log, base, quote, day, i);
      }
      if day == q.date && q.base == base && q.quote == quote { assert WritesOn(log, base, quote, day, n); }
      forall i | WritesOn(log, base, quote, day, i) && forall j | i < j :: !WritesOn(log, base, quote, day, j)
        ensures Written(log, PairKey(base, quote))[day] == log[i].rate
      {
        if i < n {
          assert !WritesOn(log, base, quote, day, n);
          assert WritesOn(before, base, quote, day, i);
          assert forall j | i < j :: WritesOn(before, base, quote, day, j) ==> WritesOn(log, base, quote, day, j);
        }
      }
    }
  }

  /** A direct lookup is the last quote of the pair. */
  lemma DirectIsLastQuote(log: seq<Quote>, base: string, quote: string, asOf: Date)
    requires CleanLog(log)
    ensures var r := Direct(Load(log), base, quote, asOf);
            && (r.None? <==> Unquoted(log, base, quote, asOf))
            && forall i | LastQuote(log, base, quote, asOf, i) :: r == Some(Point(log[i].date, log[i].rate))
  {
    hide Load, Direct, CleanLog;
    var m, r := Written(log, PairKey(base, quote)), Direct(Load(log), base, quote, asOf);
    DirectIsLastWritten(log, base, quote, asOf);
    assert r.None? ==> forall d | d in Written(log, PairKey(base, quote)) :: d > asOf;
    assert r.None? ==> forall d | d in m :: d > asOf;
    forall day: Date ensures day in m <==> exists i :: WritesOn(log, base, quote, day, i) {
      WrittenIsLast(log, base, quote, day);
    }
    forall i | 0 <= i < |log| && Quotes(log[i], base, quote, asOf) ensures log[i].date in m {
      assert WritesOn(log, base, quote, log[i].date, i);
    }
    if r.Some? {
      var day := r.value.date;
      var j :| WritesOn(log, base, quote, day, j);
      assert Quotes(log[j], base, quote, asOf);
      forall i | LastQuote(log, base, quote, asOf, i) ensures r == Some(Point(log[i].date, log[i].rate)) {
        assert day == log[i].date;
        forall k | i < k ensures !WritesOn(log, base, quote, day, k) {
          assert WritesOn(log, base, quote, day, k) ==> Quotes(log[k], base, quote, asOf);
        }
        assert WritesOn(log, base, quote, day, i);
        WrittenIsLast(log, base, quote, day);
      }
    }
  }

  /** A pair with quotes has a last one. */
  lemma {:induction false} LastExists(log: seq<Quote>, base: string, quote: string, asOf: Date)
    requires !Unquoted(log, base, quote, asOf)
    ensures exists i :: LastQuote(log, base, quote, asOf, i)
  {
    var n := |log| - 1;
    var before := log[..n];
    if Unquoted(before, base, quote, asOf) {
      forall j | 0 <= j < n ensures !Quotes(log[j], base, quote, asOf) { assert before[j] == log[j]; }
      assert LastQuote(log, base, quote, asOf, n);
    } else {
      LastExists(before, base, quote, asOf);
      var i :| LastQuote(before, base, quote, asOf, i);
      forall j | 0 <= j < n && Quotes(log[j], base, quote, asOf)
        ensures log[j].date < log[i].date || (log[j].date == log[i].date && j <= i)
      {
        assert before[j] == log[j];
      }
      if Quotes(log[n], base, quote, asOf) && log[n].date >= log[i].date {
        assert LastQuote(log, base, quote, asOf, n);
      } else {
        assert LastQuote(log, base, quote, asOf, i);
      }
    }
  }

  lemma OneOver(x: real, y: real)
    requires x != 0.0
    ensures x * y == 1.0 <==> y == 1.0 / x
  {
    if x * y == 1.0 { assert y == (x * y) / x; }
  }

  /** The database's direct or inverse rate is what the pair is quoted at. */
  lemma DirectOrInverseIsQuoted(log: seq<Quote>, base: string, quote: string, asOf: Date, day: Date, rate: real)
    requires CleanLog(log)
    ensures DirectOrInverse(Load(log), base, quote, asOf) == Some(Point(day, rate))
       <==> QuotedAt(log, base, quote, asOf, day, rate)
  {
    hide Load, Direct, CleanLog, Unquoted;
    DirectIsLastQuote(log, base, quote, asOf);
    NoneLast(log, base, quote, asOf);
    if !Unquoted(log, base, quote, asOf) {
      LastExists(log, base, quote, asOf);
    } else {
      InverseIsQuoted(log, base, quote, asOf, day, rate);
    }
  }

  lemma InverseIsQuoted(log: seq<Quote>, base: string, quote: string, asOf: Date, day: Date, rate: real)
    requires CleanLog(log)
    ensures (var back := Direct(Load(log), quote, base, asOf);
             back.Some? && back.value.rate != 0.0 && back.value.date == day && rate == 1.0 / back.value.rate)
       <==> exists i :: LastQuote(log, quote, base, asOf, i) && log[i].date == day && log[i].rate * rate == 1.0
  {
    hide Load, Direct, CleanLog, Unquoted;
    DirectIsLastQuote(log, quote, base, asOf);
    if Unquoted(log, quote, base, asOf) {
      NoneLast(log, quote, base, asOf);
    } else {
      LastExists(log, quote, base, asOf);
      var i :| LastQuote(log, quote, base, asOf, i);
      if log[i].rate != 0.0 { OneOver(log[i].rate, rate); }
      OnlyLast(log, quote, base, asOf, i);
    }
  }

  lemma OnlyLast(log: seq<Quote>, base: string, quote: string, asOf: Date, i: int)
    requires LastQuote(log, base, quote, asOf, i)
    ensures forall j | LastQuote(log, base, quote, asOf, j) :: j == i
  {
    forall j | LastQuote(log, base, quote, asOf, j) ensures j == i {
      assert Quotes(log[i], base, quote, asOf) && Quotes(log[j], base, quote, asOf);
    }
  }

  lemma NoneLast(log: seq<Quote>, base: string, quote: string, asOf: Date)
    ensures Unquoted(log, base, quote, asOf) ==> forall i :: !LastQuote(log, base, quote, asOf, i)
  {
  }

  lemma QuotedExactly(log: seq<Quote>, base: string, quote: string, asOf: Date)
    requires CleanLog(log)
    ensures Quoted(log, base, quote, asOf) <==> DirectOrInverse(Load(log), base, quote, asOf).Some?
  {
    hide Load, DirectOrInverse, CleanLog, QuotedAt;
    var p := DirectOrInverse(Load(log), base, quote, asOf);
    if p.Some? { DirectOrInverseIsQuoted(log, base, quote, asOf, p.value.date, p.value.rate); }
    if Quoted(log, base, quote, asOf) {
      var day, rate :| QuotedAt(log, base, quote, asOf, day, rate);
      DirectOrInverseIsQuoted(log, base, quote, asOf, day, rate);
    }
  }

  lemma LeadsExactly(log: seq<Quote>, base: string, m: string, quote: string, asOf: Date)
    requires CleanLog(log)
    ensures LeadsOver(log, base, m, quote, asOf) <==> m in Middles(Load(log), base, quote, asOf)
    ensures LeadsOver(log, base, m, quote, asOf) <==> Links(Load(log), base, m, quote, asOf)
  {
    hide Load, DirectOrInverse, CleanLog, Quoted, Commodities;
    QuotedExactly(log, base, m, asOf);
    QuotedExactly(log, m, quote, asOf);
    CleanSound(log);
    if Links(Load(log), base, m, quote, asOf) { LinkKnown(Load(log), base, m, asOf); }
  }

  lemma CleanSound(log: seq<Quote>)
    requires CleanLog(log)
    ensures Sound(Load(log))
  {
    LoadSound(log);
  }

  /** The database's rate is the rate read off the written prices. */
  lemma RateIsRated(log: seq<Quote>, base: string, quote: string, asOf: Date, day: Date, rate: real)
    requires CleanLog(log)
    ensures Rate(Load(log), base, quote, asOf) == Some(Point(day, rate))
       <==> RatedAt(log, base, quote, asOf, day, rate)
  {
    hide Load, DirectOrInverse, CleanLog, QuotedAt, Quoted, Middles, LeadsOver, Links;
    var s := Load(log);
    DirectOrInverseIsQuoted(log, base, quote, asOf, day, rate);
    QuotedExactly(log, base, quote, asOf);
    if base != quote && !Quoted(log, base, quote, asOf) {
      var ms := Middles(s, base, quote, asOf);
      forall m ensures LeadsOver(log, base, m, quote, asOf) <==> m in ms { LeadsExactly(log, base, m, quote, asOf); }
      if ms != {} {
        ChainExactly(log, base, Min(ms), quote, asOf, day, rate);
        forall m | LeastOver(log, base, m, quote, asOf) ensures m == Min(ms) { LeastUnique(ms, m, Min(ms)); }
      }
    }
  }

  lemma ChainExactly(log: seq<Quote>, base: string, m: string, quote: string, asOf: Date, day: Date, rate: real)
    requires CleanLog(log) && m in Middles(Load(log), base, quote, asOf)
    ensures Links(Load(log), base, m, quote, asOf)
    ensures Hop(Load(log), base, m, quote, asOf) == Point(day, rate)
       <==> Chained(log, base, m, quote, asOf, day, rate)
  {
    hide Load, DirectOrInverse, CleanLog, QuotedAt;
    var s := Load(log);
    MiddleLinks(s, base, quote, asOf, m);
    forall d: Date, x: real
      ensures QuotedAt(log, base, m, asOf, d, x) <==> DirectOrInverse(s, base, m, asOf) == Some(Point(d, x))
    {
      DirectOrInverseIsQuoted(log, base, m, asOf, d, x);
    }
    forall d: Date, x: real
      ensures QuotedAt(log, m, quote, asOf, d, x) <==> DirectOrInverse(s, m, quote, asOf) == Some(Point(d, x))
    {
      DirectOrInverseIsQuoted(log, m, quote, asOf, d, x);
    }
    var p, q := DirectOrInverse(s, base, m, asOf).value, DirectOrInverse(s, m, quote, asOf).value;
    assert QuotedAt(log, base, m, asOf, p.date, p.rate) && QuotedAt(log, m, quote, asOf, q.date, q.rate);
  }

  lemma RatedThere(log: seq<Quote>, base: string, quote: string, asOf: Date, i: int)
    requires base != quote && LastQuote(log, base, quote, asOf, i)
    ensures 0 <= i < |log| && RatedAt(log, base, quote, asOf, log[i].date, log[i].rate)
  {
    assert QuotedAt(log, base, quote, asOf, log[i].date, log[i].rate);
  }

  lemma RatedBack(log: seq<Quote>, base: string, quote: string, asOf: Date, i: int)
    requires base != quote && Unquoted(log, base, quote, asOf) && LastQuote(log, quote, base, asOf, i)
    ensures 0 <= i < |log|
    ensures log[i].rate != 0.0 ==> RatedAt(log, base, quote, asOf, log[i].date, 1.0 / log[i].rate)
  {
    if log[i].rate != 0.0 {
      OneOver(log[i].rate, 1.0 / log[i].rate);
      assert QuotedAt(log, base, quote, asOf, log[i].date, 1.0 / log[i].rate);
    }
  }

  /** A commodity is rated at one against itself. */
  lemma RatedSame(log: seq<Quote>, c: string, asOf: Date, day: Date, rate: real)
    ensures RatedAt(log, c, c, asOf, day, rate) <==> day == asOf && rate == 1.0
    ensures Rated(log, c, c, asOf)
  {
    assert RatedAt(log, c, c, asOf, asOf, 1.0);
  }
}
