/** The rows of the net worth tree, read off the lines they are built from. */
module TreeRows {
  import opened Ast
  import opened Names
  import opened Sums
  import opened AccountTree

  /** The values of the lines on accounts that belong to n, added up. */
  function ValueBelow(lines: seq<NetWorthLine>, n: string): real {
    if lines == [] then 0.0
    else
      var ln := lines[|lines| - 1];
      ValueBelow(lines[..|lines| - 1], n) + if AccountMatches(ln.account, n) then ln.value else 0.0
  }

  predicate OfPart(ln: NetWorthLine, a: string, c: string) {
    ln.account == a && ln.commodity == c
  }

  /** The units, and the values, of the lines of one account and commodity, added up. */
  function UnitsOfPart(lines: seq<NetWorthLine>, a: string, c: string): real {
    if lines == [] then 0.0
    else
      var ln := lines[|lines| - 1];
      UnitsOfPart(lines[..|lines| - 1], a, c) + if OfPart(ln, a, c) then ln.units else 0.0
  }

  function ValueOfPart(lines: seq<NetWorthLine>, a: string, c: string): real {
    if lines == [] then 0.0
    else
      var ln := lines[|lines| - 1];
      ValueOfPart(lines[..|lines| - 1], a, c) + if OfPart(ln, a, c) then ln.value else 0.0
  }

  ghost predicate Lists(lines: seq<NetWorthLine>, a: string, c: string) {
    exists i | 0 <= i < |lines| :: OfPart(lines[i], a, c)
  }

  ghost predicate UnpricedPart(lines: seq<NetWorthLine>, a: string, c: string) {
    exists i | 0 <= i < |lines| :: OfPart(lines[i], a, c) && lines[i].unpriced
  }

  ghost predicate UnpricedBelow(lines: seq<NetWorthLine>, n: string) {
    exists i | 0 <= i < |lines| :: AccountMatches(lines[i].account, n) && lines[i].unpriced
  }

  lemma ListSnoc(lines: seq<NetWorthLine>, a: string, c: string, n: string)
    requires lines != []
    ensures var before, ln := lines[..|lines| - 1], lines[|lines| - 1];
            && (Lists(lines, a, c) <==> Lists(before, a, c) || OfPart(ln, a, c))
            && (UnpricedPart(lines, a, c) <==> UnpricedPart(before, a, c) || (OfPart(ln, a, c) && ln.unpriced))
            && (UnpricedBelow(lines, n) <==> UnpricedBelow(before, n) || (AccountMatches(ln.account, n) && ln.unpriced))
  {
    hide OfPart, AccountMatches;
    var k := |lines| - 1;
    assert forall i | 0 <= i < k :: lines[..k][i] == lines[i];
  }

  /** The part of a commodity is what its lines say. */
  lemma {:induction false} PartReads(lines: seq<NetWorthLine>, a: string, c: string)
    ensures var agg := AggOf(Aggregate(lines), a);
            && (c in agg.parts <==> Lists(lines, a, c))
            && PartOf(agg, c) == Part(UnitsOfPart(lines, a, c), ValueOfPart(lines, a, c), UnpricedPart(lines, a, c))
  {
    hide Lists, UnpricedPart;
    if lines == [] {
      NothingListed(a, c);
    } else {
      PartReads(lines[..|lines| - 1], a, c);
      ListSnoc(lines, a, c, a);
    }
  }

  lemma NothingListed(a: string, c: string)
    ensures !Lists([], a, c) && !UnpricedPart([], a, c)
  {
  }

  /** A value added at one account is added to the roll-ups it belongs to. */
  lemma RollupPlus(vals: map<string, real>, a: string, v: real, n: string)
    ensures Rollup(vals[a := ValueIn(vals)(a) + v], n) == Rollup(vals, n) + if AccountMatches(a, n) then v else 0.0
  {
    hide AccountMatches;
    var after := vals[a := ValueIn(vals)(a) + v];
    var below, below' := Below(vals.Keys, n), Below(after.Keys, n);
    if AccountMatches(a, n) {
      SumRemove(below', ValueIn(after), a);
      assert below' - {a} == below - {a};
      SumSame(below - {a}, ValueIn(after), ValueIn(vals));
      if a in vals {
        SumRemove(below, ValueIn(vals), a);
      } else {
        assert below - {a} == below;
      }
    } else {
      assert below' == below;
      SumSame(below, ValueIn(after), ValueIn(vals));
    }
  }

  /** A roll-up is the sum over the lines below. */
  lemma {:induction false} RollupReads(lines: seq<NetWorthLine>, n: string)
    ensures Rollup(Values(Aggregate(lines)), n) == ValueBelow(lines, n)
  {
    hide AccountMatches, Rollup;
    if lines == [] {
      assert Values(map[]) == map[];
      NothingBelow(n);
    } else {
      var k := |lines| - 1;
      var ln, aggs := lines[k], Aggregate(lines[..k]);
      RollupReads(lines[..k], n);
      RollupPlus(Values(aggs), ln.account, ln.value, n);
      assert Values(Aggregate(lines)) == Values(aggs)[ln.account := ValueIn(Values(aggs))(ln.account) + ln.value];
    }
  }

  lemma NothingBelow(n: string)
    ensures Rollup(map[], n) == 0.0
  {
    var none: map<string, real> := map[];
    assert Below(none.Keys, n) == {};
  }

  lemma {:induction false} UnpricedReads(lines: seq<NetWorthLine>, n: string)
    ensures SomeUnpriced(Aggregate(lines), n) <==> UnpricedBelow(lines, n)
  {
    hide AccountMatches, UnpricedBelow;
    if lines == [] {
      assert !UnpricedBelow([], n) by { NothingUnpriced(n); }
    } else {
      var k := |lines| - 1;
      UnpricedReads(lines[..k], n);
      ListSnoc(lines, n, "", n);
      UnpricedStep(Aggregate(lines[..k]), lines[k], n);
    }
  }

  lemma NothingUnpriced(n: string)
    ensures !UnpricedBelow([], n)
  {
  }

  lemma UnpricedStep(aggs: map<string, Agg>, ln: NetWorthLine, n: string)
    ensures SomeUnpriced(aggs[ln.account := AddLine(AggOf(aggs, ln.account), ln)], n) <==>
            SomeUnpriced(aggs, n) || (AccountMatches(ln.account, n) && ln.unpriced)
  {
    hide AccountMatches;
    var after := aggs[ln.account := AddLine(AggOf(aggs, ln.account), ln)];
    if a :| a in aggs && AccountMatches(a, n) && aggs[a].unpriced {
      assert a in after && after[a].unpriced;
    }
    if AccountMatches(ln.account, n) && ln.unpriced {
      assert after[ln.account].unpriced;
    }
  }

  /** The accounts are those of the lines. */
  lemma {:induction false} AccountsRead(lines: seq<NetWorthLine>, a: string)
    ensures a in Aggregate(lines) <==> exists i | 0 <= i < |lines| :: lines[i].account == a
  {
    hide AddLine;
    if lines != [] {
      var k := |lines| - 1;
      AccountsRead(lines[..k], a);
      assert forall i | 0 <= i < k :: lines[..k][i] == lines[i];
      assert lines[k].account == a ==> exists i | 0 <= i < |lines| :: lines[i].account == a;
    }
  }

  /** Some line stands on an account strictly under n. */
  ghost predicate LineUnder(lines: seq<NetWorthLine>, n: string) {
    exists i | 0 <= i < |lines| :: lines[i].account != "" && Under(lines[i].account, n)
  }

  lemma MarkedReads(lines: seq<NetWorthLine>, n: string)
    ensures n in Marked(Nodes(Aggregate(lines).Keys)) <==> LineUnder(lines, n)
  {
    hide Nodes, Marked, Under, Aggregate;
    var leaves := Aggregate(lines).Keys;
    HasChildExactly(leaves, n);
    if m :| m in Nodes(leaves) && Under(m, n) {
      var a :| a in leaves && a != "" && (m == a || Under(a, m));
      AccountsRead(lines, a);
      UnderTwice(a, m, n);
    }
    if i :| 0 <= i < |lines| && lines[i].account != "" && Under(lines[i].account, n) {
      AccountsRead(lines, lines[i].account);
      assert IsNode(leaves, lines[i].account);
    }
  }

  lemma UnderTwice(a: string, m: string, n: string)
    requires Under(m, n) && (m == a || Under(a, m))
    ensures Under(a, n)
  {
    if m != a {
      assert a[..|n|] == a[..|m|][..|n|] && a[|n|] == a[..|m|][|n|];
    }
  }

  /** The account has lines of just this commodity. */
  ghost predicate OnlyPart(lines: seq<NetWorthLine>, a: string, c: string) {
    Lists(lines, a, c) && forall d | Lists(lines, a, d) :: d == c
  }

  ghost predicate TwoParts(lines: seq<NetWorthLine>, a: string) {
    exists c, d :: c != d && Lists(lines, a, c) && Lists(lines, a, d)
  }

  lemma SizeReads(parts: map<string, Part>)
    ensures |parts| > 1 <==> exists c, d :: c != d && c in parts && d in parts
    ensures forall c :: |parts| == 1 && c in parts ==> parts.Keys == {c}
    ensures |parts| == 0 <==> parts.Keys == {}
  {
    assert |parts| == |parts.Keys|;
    if |parts| > 0 {
      var c :| c in parts;
      assert |parts.Keys - {c}| == |parts| - 1;
      if |parts| > 1 {
        var d :| d in parts.Keys - {c};
      }
      if |parts| == 1 {
        assert parts.Keys - {c} == {};
        forall d | d in parts ensures d == c { assert d in parts.Keys - {c} || d == c; }
      }
    }
  }

  lemma PartsRead(lines: seq<NetWorthLine>, a: string)
    ensures var agg := AggOf(Aggregate(lines), a);
            && (|agg.parts| > 1 <==> TwoParts(lines, a))
            && (|agg.parts| == 1 <==> exists c :: OnlyPart(lines, a, c))
            && (forall c | OnlyPart(lines, a, c) :: agg.parts.Keys == {c})
  {
    hide Aggregate, Lists;
    var parts := AggOf(Aggregate(lines), a).parts;
    forall c ensures c in parts <==> Lists(lines, a, c) { PartReads(lines, a, c); }
    SizeReads(parts);
    if |parts| == 1 {
      var c :| c in parts;
      assert OnlyPart(lines, a, c);
    }
    forall c | OnlyPart(lines, a, c) ensures parts.Keys == {c} {
      assert forall d :: d in parts <==> d == c;
    }
    if c :| OnlyPart(lines, a, c) {
      assert parts.Keys == {c};
      assert |parts| == |parts.Keys| == 1;
    }
  }

  /**
    A row of the tree, read off the lines: the value of everything on accounts that belong to the node, flagged
    when some of it has no price; a roll-up when a line stands under the node or its own lines are of two
    commodities; the units when no line stands under it and its own lines are of one.
  */
  lemma NodeRowReads(lines: seq<NetWorthLine>, n: string)
    ensures var aggs := Aggregate(lines);
            var row := NodeRow(aggs, Marked(Nodes(aggs.Keys)), n);
            && row.value == ValueBelow(lines, n) && (row.unpriced <==> UnpricedBelow(lines, n))
            && (row.isRollup <==> LineUnder(lines, n) || TwoParts(lines, n))
            && (row.units.Some? <==> !LineUnder(lines, n) && exists c :: OnlyPart(lines, n, c))
            && (forall c | !LineUnder(lines, n) && OnlyPart(lines, n, c) ::
                  row.units == Some(UnitsOfPart(lines, n, c)) && row.commodity == c)
  {
    hide Aggregate, Rollup, Nodes, Marked, SomeUnpriced, Lists, UnpricedBelow, LineUnder, TwoParts, OnlyPart;
    var aggs := Aggregate(lines);
    RollupReads(lines, n);
    UnpricedReads(lines, n);
    MarkedReads(lines, n);
    PartsRead(lines, n);
    forall c | OnlyPart(lines, n, c)
      ensures Min({c}) == c && AggOf(aggs, n).parts.Keys == {c}
      ensures c in AggOf(aggs, n).parts && AggOf(aggs, n).parts[c].units == UnitsOfPart(lines, n, c)
    {
      MinOfOne(c);
      PartReads(lines, n, c);
      assert c in AggOf(aggs, n).parts.Keys;
    }
  }

  lemma MinOfOne(c: string)
    ensures Min({c}) == c
  {
    assert Min({c}) in {c};
  }

  /** The row of one commodity of an account, read off its lines. */
  lemma PartRowReads(lines: seq<NetWorthLine>, n: string, c: string)
    ensures var row := PartRow(n, c, PartOf(AggOf(Aggregate(lines), n), c));
            row.units == Some(UnitsOfPart(lines, n, c)) && row.value == ValueOfPart(lines, n, c)
            && (row.unpriced <==> UnpricedPart(lines, n, c)) && row.commodity == c && !row.isRollup
  {
    hide UnitsOfPart, ValueOfPart, UnpricedPart, Aggregate;
    PartReads(lines, n, c);
  }

  // ----- the rows of the income statement

  /** An account with a sum stands strictly under n. */
  predicate SumUnder(sums: map<string, real>, n: string) {
    exists a | a in sums :: sums[a] != 0.0 && a != "" && Under(a, n)
  }

  /** A row of the statement: the sums of the accounts that belong to the node, added up, if not zero; a roll-up
      when an account with a sum stands under it. */
  lemma PnlRowReads(sums: map<string, real>, op: string, n: string)
    ensures var flat := NonZero(sums);
            var rows := PnlRow(flat, Marked(Nodes(flat.Keys)), op, n);
            var below := set a | a in sums && (n == "" || a == n || Under(a, n));
            var total := SumOver(below, ValueIn(sums));
            && (rows == [] <==> total == 0.0)
            && (rows != [] ==> |rows| == 1 && rows[0].value == total && rows[0].commodity == op && rows[0].units.None?
                               && (rows[0].isRollup <==> SumUnder(sums, n)))
  {
    hide Nodes, Marked, Under, AccountLeaf, AccountDepth;
    var flat := NonZero(sums);
    var below := set a | a in sums && (n == "" || a == n || Under(a, n));
    SumDrop(Below(flat.Keys, n), below, ValueIn(sums));
    SumSame(Below(flat.Keys, n), ValueIn(flat), ValueIn(sums));
    MarkedSums(sums, n);
  }

  lemma MarkedSums(sums: map<string, real>, n: string)
    ensures n in Marked(Nodes(NonZero(sums).Keys)) <==> SumUnder(sums, n)
  {
    hide Nodes, Marked, Under;
    var leaves := NonZero(sums).Keys;
    HasChildExactly(leaves, n);
    if m :| m in Nodes(leaves) && Under(m, n) {
      var a :| a in leaves && a != "" && (m == a || Under(a, m));
      UnderTwice(a, m, n);
    }
    if a :| a in sums && sums[a] != 0.0 && a != "" && Under(a, n) {
      assert a in leaves && IsNode(leaves, a);
    }
  }

  // ----- depth and name of a row, by the parts of its account

  /** The depth counts the parts after the first. */
  lemma {:induction false} DepthReads(n: string)
    ensures AccountDepth(n) == |Split(n)| - 1
  {
    if n != "" {
      DepthReads(n[1..]);
      DepthCons(n[0], n[1..]);
      assert n == [n[0]] + n[1..];
    }
  }

  lemma {:induction false} DepthCons(c: char, n: string)
    ensures AccountDepth([c] + n) == AccountDepth(n) + if c == ':' then 1 else 0
  {
    if n == "" {
      assert ([c] + n)[..0] == "";
    } else {
      assert ([c] + n)[..|n|] == [c] + n[..|n| - 1];
      DepthCons(c, n[..|n| - 1]);
    }
  }

  /** The name is the last part, unless that is empty; then it is the whole account. */
  lemma LeafReads(n: string)
    ensures var last := Split(n)[|Split(n)| - 1]; AccountLeaf(n) == if last != "" then last else n
  {
    LastPart(n, LastColon(n));
  }

  predicate LastColonAt(n: string, i: int) {
    -1 <= i < |n| && (i >= 0 ==> n[i] == ':') && forall k | i < k < |n| :: n[k] != ':'
  }

  /** The last part is what follows the last colon. */
  lemma {:induction false} LastPart(n: string, i: int)
    requires LastColonAt(n, i)
    ensures Split(n)[|Split(n)| - 1] == n[i + 1..]
  {
    if n != "" {
      if i >= 1 {
        ColonBehind(n, i);
        LastPart(n[1..], i - 1);
        ManyParts(n[1..], i - 1);
        LaterPart(n);
      } else {
        NoColonBehind(n, i);
        OnePart(n[1..]);
      }
    }
  }

  lemma ColonBehind(n: string, i: nat)
    requires LastColonAt(n, i) && i >= 1
    ensures LastColonAt(n[1..], i - 1) && n[1..][i - 1] == ':' && n[i + 1..] == n[1..][i..]
  {
  }

  lemma NoColonBehind(n: string, i: int)
    requires n != "" && LastColonAt(n, i) && i < 1
    ensures forall k | 0 <= k < |n[1..]| :: n[1..][k] != ':'
    ensures n == [n[0]] + n[1..]
  {
  }

  lemma {:induction false} LaterPart(n: string)
    requires n != "" && |Split(n[1..])| > 1
    ensures Split(n)[|Split(n)| - 1] == Split(n[1..])[|Split(n[1..])| - 1]
  {
    var rest := Split(n[1..]);
    assert Split(n) == if n[0] == ':' then [""] + rest else [[n[0]] + rest[0]] + rest[1..];
  }

  /** A name with a colon has more than one part. */
  lemma ManyParts(n: string, i: nat)
    requires i < |n| && n[i] == ':'
    ensures |Split(n)| > 1
  {
    DepthReads(n);
    DepthZero(n);
  }

  lemma {:induction false} OnePart(n: string)
    requires forall k | 0 <= k < |n| :: n[k] != ':'
    ensures Split(n) == [n]
  {
    if n != "" {
      OnePart(n[1..]);
      assert n == [n[0]] + n[1..];
    }
  }
}
