/** The account tree: prefixes of account names, parents marked in one pass, and roll-ups. */
module AccountTree {
  import opened Ast
  import opened Names
  import opened Sums

  /* Names and their colons. */

  /** The name cut at its colons. */
  function Split(a: string): (parts: seq<string>)
    ensures |parts| >= 1
  {
    if a == "" then [""]
    else
      var rest := Split(a[1..]);
      if a[0] == ':' then [""] + rest else [[a[0]] + rest[0]] + rest[1..]
  }

  function Join(parts: seq<string>): string
    requires parts != []
  {
    if |parts| == 1 then parts[0] else parts[0] + ":" + Join(parts[1..])
  }

  /** m lies strictly under n: it starts with n and a colon. */
  predicate Under(m: string, n: string) {
    |n| < |m| && m[..|n|] == n && m[|n|] == ':'
  }

  /** Whether account a belongs to n: n itself or an account under it; the empty name takes all. */
  predicate AccountMatches(a: string, n: string) {
    n == "" || a == n || Under(a, n)
  }

  lemma UnderCons(c: char, a: string, p: string)
    ensures Under([c] + a, [c] + p) <==> Under(a, p)
    ensures [c] + a == [c] + p <==> a == p
  {
    assert Under(a, p) ==> ([c] + a)[..|p| + 1] == [c] + a[..|p|];
    assert ([c] + a)[1..] == a && ([c] + p)[1..] == p;
    if Under([c] + a, [c] + p) {
      assert a[..|p|] == ([c] + a)[..|p| + 1][1..];
    }
  }

  lemma JoinCons(c: char, parts: seq<string>)
    requires parts != []
    ensures Join([[c] + parts[0]] + parts[1..]) == [c] + Join(parts)
  {
    var longer := [[c] + parts[0]] + parts[1..];
    assert longer[1..] == parts[1..];
  }

  /** Every joined beginning of the parts is the name or a name it lies under. */
  lemma {:induction false} JoinIsPrefix(a: string, i: nat)
    requires 1 <= i <= |Split(a)|
    ensures var p := Join(Split(a)[..i]); p == a || Under(a, p)
  {
    if a != "" {
      var rest := Split(a[1..]);
      assert a == [a[0]] + a[1..];
      if a[0] == ':' {
        if i > 1 {
          JoinIsPrefix(a[1..], i - 1);
          assert Split(a)[..i] == [""] + rest[..i - 1];
          assert Split(a)[..i][1..] == rest[..i - 1];
          UnderCons(':', a[1..], Join(rest[..i - 1]));
        }
      } else {
        JoinIsPrefix(a[1..], i);
        assert Split(a)[..i] == [[a[0]] + rest[..i][0]] + rest[..i][1..];
        JoinCons(a[0], rest[..i]);
        UnderCons(a[0], a[1..], Join(rest[..i]));
      }
    }
  }

  /** And every such name is a joined beginning. */
  lemma {:induction false} PrefixIsJoin(a: string, p: string) returns (i: nat)
    requires p == a || Under(a, p)
    ensures 1 <= i <= |Split(a)| && Join(Split(a)[..i]) == p
  {
    if a == "" {
      i := 1;
    } else {
      var rest := Split(a[1..]);
      assert a == [a[0]] + a[1..];
      if p == "" {
        i := 1;
      } else {
        assert p == [a[0]] + p[1..];
        UnderCons(a[0], a[1..], p[1..]);
        var j := PrefixIsJoin(a[1..], p[1..]);
        if a[0] == ':' {
          i := j + 1;
          assert Split(a)[..i] == [""] + rest[..j];
          assert Split(a)[..i][1..] == rest[..j];
        } else {
          i := j;
          assert Split(a)[..i] == [[a[0]] + rest[..i][0]] + rest[..i][1..];
          JoinCons(a[0], rest[..i]);
        }
      }
    }
  }

  /** The index of the last colon, or -1. */
  function LastColon(n: string): (i: int)
    ensures -1 <= i < |n| && (i >= 0 ==> n[i] == ':') && forall k | i < k < |n| :: n[k] != ':'
  {
    if n == "" then -1 else if n[|n| - 1] == ':' then |n| - 1 else LastColon(n[..|n| - 1])
  }

  /** The first colon at or after from, or the length. */
  function NextColon(n: string, from: nat): (i: nat)
    requires from <= |n|
    ensures from <= i <= |n| && (i < |n| ==> n[i] == ':') && forall k | from <= k < i :: n[k] != ':'
    decreases |n| - from
  {
    if from == |n| || n[from] == ':' then from else NextColon(n, from + 1)
  }

  /** The number of colons. */
  function AccountDepth(n: string): nat {
    if n == "" then 0 else AccountDepth(n[..|n| - 1]) + if n[|n| - 1] == ':' then 1 else 0
  }

  lemma {:induction false} DepthZero(n: string)
    ensures AccountDepth(n) == 0 <==> ':' !in n
  {
    if n != "" {
      DepthZero(n[..|n| - 1]);
      assert n == n[..|n| - 1] + [n[|n| - 1]];
    }
  }

  /** The last part of a name, or the whole name when that part is empty. */
  function AccountLeaf(n: string): string {
    var i := LastColon(n);
    if i >= 0 && i + 1 < |n| then n[i + 1..] else n
  }

  /* Nodes. */

  /** The accounts and the names above them. */
  predicate IsNode(leaves: set<string>, n: string) {
    exists a | a in leaves :: a != "" && (n == a || Under(a, n))
  }

  function Nodes(leaves: set<string>): (nodes: set<string>)
    ensures forall n :: n in nodes <==> IsNode(leaves, n)
  {
    var nodes := set a, i | a in leaves && a != "" && 0 <= i <= |a| && (i == |a| || a[i] == ':') :: a[..i];
    assert forall n | IsNode(leaves, n) :: n in nodes by {
      forall n | IsNode(leaves, n) ensures n in nodes {
        var a :| a in leaves && a != "" && (n == a || Under(a, n));
        assert n == a[..|n|];
      }
    }
    nodes
  }

  /** n is the part of m before its last colon. */
  predicate IsParent(m: string, n: string) {
    LastColon(m) >= 0 && m[..LastColon(m)] == n
  }

  /** The names marked by one pass over the nodes. */
  function Marked(nodes: set<string>): set<string> {
    set m | m in nodes && LastColon(m) >= 0 :: m[..LastColon(m)]
  }

  /** The node just below n on the way to a. */
  function ChildToward(a: string, n: string): string
    requires Under(a, n)
  {
    a[..NextColon(a, |n| + 1)]
  }

  lemma ChildIsBetween(a: string, n: string)
    requires Under(a, n)
    ensures var m := ChildToward(a, n); IsParent(m, n) && Under(m, n) && (m == a || Under(a, m))
  {
    var m := ChildToward(a, n);
    assert m[|n|] == ':' && LastColon(m) == |n|;
  }

  lemma ChildIsUnique(a: string, n: string, m: string)
    requires IsParent(m, n) && (m == a || Under(a, m))
    ensures Under(a, n) && m == ChildToward(a, n)
  {
    assert m == a[..|m|];
    var k := NextColon(a, |n| + 1);
    assert a[|n|] == m[|n|] && a[..|n|] == n;
    forall i | |n| < i < |m| ensures a[i] != ':' {
      assert m[i] == a[i];
    }
  }

  lemma ParentAbove(m: string, n: string)
    requires IsParent(m, n)
    ensures Under(m, n)
  {
  }

  /** One pass marks exactly the names that some name lies under. */
  lemma HasChildExactly(leaves: set<string>, n: string)
    ensures n in Marked(Nodes(leaves)) <==> exists m | m in Nodes(leaves) :: Under(m, n)
  {
    hide Nodes, IsNode, Under, ChildToward;
    if n in Marked(Nodes(leaves)) {
      var m :| m in Nodes(leaves) && IsParent(m, n);
      ParentAbove(m, n);
    }
    if m :| m in Nodes(leaves) && Under(m, n) {
      ChildIsBetween(m, n);
      NodesAbove(leaves, m, ChildToward(m, n));
    }
  }

  lemma NodesAbove(leaves: set<string>, m: string, n: string)
    requires IsNode(leaves, m) && (n == m || Under(m, n))
    ensures IsNode(leaves, n)
  {
    var a :| a in leaves && a != "" && (m == a || Under(a, m));
    if n != m && m != a {
      assert a[..|n|] == a[..|m|][..|n|] && a[|n|] == a[..|m|][|n|];
      assert Under(a, n);
    }
  }

  /* Roll-ups. */

  /** The accounts that belong to n. */
  function Below(accounts: set<string>, n: string): set<string> {
    set a | a in accounts && AccountMatches(a, n)
  }

  function StrictlyUnder(accounts: set<string>, n: string): set<string> {
    set a | a in accounts && Under(a, n)
  }

  function ValueIn(vals: map<string, real>): string -> real {
    a => if a in vals then vals[a] else 0.0
  }

  /** The total of the accounts that belong to n. */
  ghost function Rollup(vals: map<string, real>, n: string): real {
    SumOver(Below(vals.Keys, n), ValueIn(vals))
  }

  ghost function RollupOf(vals: map<string, real>): string -> real {
    n => Rollup(vals, n)
  }

  /** The nodes immediately below n. */
  function Children(nodes: set<string>, n: string): set<string> {
    set m | m in nodes && IsParent(m, n)
  }

  function Toward(n: string): string -> string {
    a => if Under(a, n) then ChildToward(a, n) else ""
  }

  lemma ChildGroup(accounts: set<string>, n: string, m: string)
    requires IsParent(m, n)
    ensures Fibre(StrictlyUnder(accounts, n), Toward(n), m) == Below(accounts, m)
  {
    hide Under, ChildToward;
    ParentAbove(m, n);
    forall a | a in accounts
      ensures Under(a, n) && Toward(n)(a) == m <==> AccountMatches(a, m)
    {
      if Under(a, n) {
        ChildIsBetween(a, n);
      }
      if a == m || Under(a, m) {
        ChildIsUnique(a, n, m);
      }
    }
  }

  /** A roll-up is the node's own value plus the roll-ups of the nodes immediately below it. */
  lemma RollupSplits(vals: map<string, real>, n: string)
    requires n != ""
    ensures Rollup(vals, n) ==
            ValueIn(vals)(n) + SumOver(Children(Nodes(vals.Keys), n), RollupOf(vals))
  {
    hide Nodes, ChildToward;
    var accounts := vals.Keys;
    var under := StrictlyUnder(accounts, n);
    var own := set a | a in accounts && a == n;
    var children := Children(Nodes(accounts), n);
    assert Below(accounts, n) == own + under;
    SumUnion(own, under, ValueIn(vals));
    SumOne(own, ValueIn(vals), n);
    forall a | a in under ensures Toward(n)(a) in children {
      ChildIsBetween(a, n);
      assert IsNode(accounts, ChildToward(a, n));
    }
    forall m | m in children ensures RollupOf(vals)(m) == SumOver(Fibre(under, Toward(n), m), ValueIn(vals)) {
      ChildGroup(accounts, n, m);
    }
    SumFibres(under, Toward(n), children, ValueIn(vals), RollupOf(vals));
  }

  lemma SumOne(own: set<string>, f: string -> real, n: string)
    requires own == {n} || (own == {} && f(n) == 0.0)
    ensures SumOver(own, f) == f(n)
  {
    if own == {n} {
      SumRemove(own, f, n);
      assert own - {n} == {};
    }
  }

  /* The top of the tree. */

  /** A name with a first part. */
  predicate Proper(a: string) {
    a != "" && a[0] != ':'
  }

  function TopOf(a: string): string {
    a[..NextColon(a, 0)]
  }

  function Tops(nodes: set<string>): set<string> {
    set n | n in nodes && AccountDepth(n) == 0
  }

  ghost function Total(vals: map<string, real>): real {
    SumOver(vals.Keys, ValueIn(vals))
  }

  lemma TopIsNode(a: string)
    requires Proper(a)
    ensures var t := TopOf(a); t != "" && (t == a || Under(a, t)) && AccountDepth(t) == 0
  {
    DepthZero(TopOf(a));
  }

  lemma TopMatches(a: string, t: string)
    requires t != "" && AccountDepth(t) == 0
    ensures Proper(a) && TopOf(a) == t <==> AccountMatches(a, t)
  {
    DepthZero(t);
    if AccountMatches(a, t) {
      assert t == a[..|t|];
      forall i | 0 <= i < |t| ensures a[i] != ':' {
        assert a[i] == t[i];
      }
    } else if Proper(a) {
      TopIsNode(a);
    }
  }

  /** The accounts with a first part, and whether there are any whose first part is empty. */
  function ProperOf(accounts: set<string>): set<string> {
    set a | a in accounts && Proper(a)
  }

  predicate SomeLeading(accounts: set<string>) {
    exists a | a in accounts :: a != "" && a[0] == ':'
  }

  lemma ProperTopGroup(accounts: set<string>, t: string)
    requires t != "" && AccountDepth(t) == 0
    ensures Fibre(ProperOf(accounts), TopOf, t) == Below(accounts, t)
  {
    hide TopOf, AccountMatches, Proper, AccountDepth;
    forall a | a in accounts ensures Proper(a) && TopOf(a) == t <==> AccountMatches(a, t) {
      TopMatches(a, t);
    }
  }

  lemma EmptyTop(accounts: set<string>)
    ensures IsNode(accounts, "") <==> SomeLeading(accounts)
    ensures Below(accounts, "") == accounts
  {
    if a :| a in accounts && a != "" && a[0] == ':' {
      assert Under(a, "");
    }
  }

  lemma ProperTopsSum(vals: map<string, real>)
    ensures SumOver(Tops(Nodes(vals.Keys)) - {""}, RollupOf(vals)) == SumOver(ProperOf(vals.Keys), ValueIn(vals))
  {
    hide Nodes, AccountDepth, Under, TopOf, Proper;
    var tops := Tops(Nodes(vals.Keys)) - {""};
    forall a | a in ProperOf(vals.Keys) ensures TopOf(a) in tops {
      TopIsNode(a);
      ProperSome(a);
      assert IsNode(vals.Keys, TopOf(a));
    }
    forall t | t in tops ensures RollupOf(vals)(t) == SumOver(Fibre(ProperOf(vals.Keys), TopOf, t), ValueIn(vals)) {
      ProperTopGroup(vals.Keys, t);
    }
    SumFibres(ProperOf(vals.Keys), TopOf, tops, ValueIn(vals), RollupOf(vals));
  }

  lemma ProperSome(a: string)
    requires Proper(a)
    ensures a != ""
  {
  }

  /** The roll-ups at depth 0: each account with a first part counts once, and everything counts once
      more when some account starts with a colon. */
  lemma TopsSum(vals: map<string, real>)
    ensures SumOver(Tops(Nodes(vals.Keys)), RollupOf(vals)) ==
            SumOver(ProperOf(vals.Keys), ValueIn(vals)) + if SomeLeading(vals.Keys) then Total(vals) else 0.0
  {
    hide Nodes, IsNode, SomeLeading;
    var tops := Tops(Nodes(vals.Keys));
    ProperTopsSum(vals);
    EmptyTop(vals.Keys);
    if "" in tops {
      SumRemove(tops, RollupOf(vals), "");
    } else {
      assert tops - {""} == tops;
    }
  }

  /** When every account has a first part, the roll-ups at depth 0 add up to the total. */
  lemma TopsSumToTotal(vals: map<string, real>)
    requires forall a | a in vals :: Proper(a)
    ensures SumOver(Tops(Nodes(vals.Keys)), RollupOf(vals)) == Total(vals)
  {
    TopsSum(vals);
    assert ProperOf(vals.Keys) == vals.Keys;
  }

  /* Rows. */

  datatype Row = Row(
    account: string,
    path: string,
    name: string,
    depth: nat,
    units: Option<real>,
    commodity: string,
    value: real,
    isRollup: bool,
    unpriced: bool)

  /** The rows at depth 0, added up. */
  function SumTop(rows: seq<Row>): real {
    if rows == [] then 0.0
    else
      var last := rows[|rows| - 1];
      SumTop(rows[..|rows| - 1]) + if last.depth == 0 then last.value else 0.0
  }

  lemma {:induction false} SumTopConcat(a: seq<Row>, b: seq<Row>)
    ensures SumTop(a + b) == SumTop(a) + SumTop(b)
  {
    if b == [] {
      assert a + b == a;
    } else {
      var n := |b| - 1;
      assert (a + b)[..|a + b| - 1] == a + b[..n];
      SumTopConcat(a, b[..n]);
    }
  }

  /** The names' own share of the rows at depth 0. */
  ghost function SumNames(names: seq<string>, vals: map<string, real>): real {
    if names == [] then 0.0
    else SumNames(names[..|names| - 1], vals) + TopShare(vals)(names[|names| - 1])
  }

  ghost function TopShare(vals: map<string, real>): string -> real {
    n => if AccountDepth(n) == 0 then Rollup(vals, n) else 0.0
  }

  lemma {:induction false} SumNamesCons(n: string, names: seq<string>, vals: map<string, real>)
    ensures SumNames([n] + names, vals) == TopShare(vals)(n) + SumNames(names, vals)
    decreases |names|
  {
    var all := [n] + names;
    if names == [] {
      assert all[..0] == [];
    } else {
      assert all[..|all| - 1] == [n] + names[..|names| - 1];
      SumNamesCons(n, names[..|names| - 1], vals);
    }
  }

  lemma {:induction false} SumListing(s: set<string>, vals: map<string, real>)
    ensures SumNames(Listing(s), vals) == SumOver(s, TopShare(vals))
    decreases |s|
  {
    if s != {} {
      var m := Min(s);
      SumNamesCons(m, Listing(s - {m}), vals);
      SumListing(s - {m}, vals);
      SumRemove(s, TopShare(vals), m);
    }
  }

  /** Over all nodes in order, the share at depth 0 is the total. */
  lemma NamesSumToTotal(vals: map<string, real>)
    requires forall a | a in vals :: Proper(a)
    ensures SumNames(Listing(Nodes(vals.Keys)), vals) == Total(vals)
  {
    hide Nodes, Listing, Proper, AccountDepth;
    var nodes := Nodes(vals.Keys);
    SumListing(nodes, vals);
    SumDrop(Tops(nodes), nodes, TopShare(vals));
    SumSame(Tops(nodes), TopShare(vals), RollupOf(vals));
    TopsSumToTotal(vals);
  }

  /* The income statement. */

  ghost function PnlRow(flat: map<string, real>, marked: set<string>, op: string, n: string): seq<Row> {
    var amount := Rollup(flat, n);
    if amount == 0.0 then []
    else [Row(n, n, AccountLeaf(n), AccountDepth(n), None, op, amount, n in marked, false)]
  }

  ghost function PnlRows(names: seq<string>, flat: map<string, real>, marked: set<string>, op: string): seq<Row> {
    if names == [] then []
    else PnlRows(names[..|names| - 1], flat, marked, op) + PnlRow(flat, marked, op, names[|names| - 1])
  }

  function NonZero(sums: map<string, real>): map<string, real> {
    map a | a in sums && sums[a] != 0.0 :: sums[a]
  }

  /** The tree section of accounts with their converted sums. */
  ghost function PnlTree(sums: map<string, real>, op: string): seq<Row> {
    var flat := NonZero(sums);
    PnlRows(Listing(Nodes(flat.Keys)), flat, Marked(Nodes(flat.Keys)), op)
  }

  lemma {:induction false} PnlRowsSum(names: seq<string>, flat: map<string, real>, marked: set<string>, op: string)
    ensures SumTop(PnlRows(names, flat, marked, op)) == SumNames(names, flat)
  {
    hide Rollup, AccountDepth, AccountLeaf;
    if names != [] {
      var n := |names| - 1;
      PnlRowsSum(names[..n], flat, marked, op);
      SumTopConcat(PnlRows(names[..n], flat, marked, op), PnlRow(flat, marked, op, names[n]));
      PnlRowSum(flat, marked, op, names[n]);
    }
  }

  lemma PnlRowSum(flat: map<string, real>, marked: set<string>, op: string, n: string)
    ensures SumTop(PnlRow(flat, marked, op, n)) == TopShare(flat)(n)
  {
    hide Rollup, AccountDepth, AccountLeaf;
    if Rollup(flat, n) != 0.0 {
      var row := PnlRow(flat, marked, op, n);
      assert row[..0] == [];
    }
  }

  /** The top rows of the statement add up to the total, though rows that cancel out are dropped. */
  lemma PnlTreeTotal(sums: map<string, real>, op: string)
    requires forall a | a in sums :: Proper(a)
    ensures SumTop(PnlTree(sums, op)) == Total(sums)
  {
    hide Nodes, Listing, Marked, PnlRows, SumNames, Proper;
    var flat := NonZero(sums);
    NamesSumToTotal(flat);
    PnlRowsSum(Listing(Nodes(flat.Keys)), flat, Marked(Nodes(flat.Keys)), op);
    SumDrop(flat.Keys, sums.Keys, ValueIn(sums));
    SumSame(flat.Keys, ValueIn(flat), ValueIn(sums));
  }

  /* Net worth. */

  datatype NetWorthLine = NetWorthLine(account: string, commodity: string, units: real, value: real, unpriced: bool)

  datatype Part = Part(units: real, value: real, unpriced: bool)

  datatype Agg = Agg(value: real, unpriced: bool, parts: map<string, Part>)

  const EMPTY_PART := Part(0.0, 0.0, false)
  const EMPTY_AGG := Agg(0.0, false, map[])

  function PartOf(a: Agg, c: string): Part {
    if c in a.parts then a.parts[c] else EMPTY_PART
  }

  function AggOf(aggs: map<string, Agg>, account: string): Agg {
    if account in aggs then aggs[account] else EMPTY_AGG
  }

  function AddLine(a: Agg, ln: NetWorthLine): Agg {
    var p := PartOf(a, ln.commodity);
    Agg(
      a.value + ln.value,
      a.unpriced || ln.unpriced,
      a.parts[ln.commodity := Part(p.units + ln.units, p.value + ln.value, p.unpriced || ln.unpriced)])
  }

  function Aggregate(lines: seq<NetWorthLine>): map<string, Agg> {
    if lines == [] then map[]
    else
      var aggs := Aggregate(lines[..|lines| - 1]);
      var ln := lines[|lines| - 1];
      aggs[ln.account := AddLine(AggOf(aggs, ln.account), ln)]
  }

  function Values(aggs: map<string, Agg>): map<string, real> {
    map a | a in aggs :: aggs[a].value
  }

  function SumLines(lines: seq<NetWorthLine>): real {
    if lines == [] then 0.0 else SumLines(lines[..|lines| - 1]) + lines[|lines| - 1].value
  }

  /** A value added at one key is added to the total. */
  lemma TotalPlus(vals: map<string, real>, a: string, v: real)
    ensures Total(vals[a := ValueIn(vals)(a) + v]) == Total(vals) + v
  {
    var after := vals[a := ValueIn(vals)(a) + v];
    var rest := vals.Keys - {a};
    SumRemove(after.Keys, ValueIn(after), a);
    assert after.Keys - {a} == rest;
    SumSame(rest, ValueIn(after), ValueIn(vals));
    if a in vals {
      SumRemove(vals.Keys, ValueIn(vals), a);
    } else {
      assert rest == vals.Keys;
    }
  }

  /** Aggregation loses nothing: the accounts' values add up to the lines'. */
  lemma {:induction false} AggregateTotal(lines: seq<NetWorthLine>)
    ensures Total(Values(Aggregate(lines))) == SumLines(lines)
  {
    hide Total;
    if lines == [] {
      NothingTotal();
      assert Values(map[]) == map[];
    } else {
      var n := |lines| - 1;
      var ln, aggs := lines[n], Aggregate(lines[..n]);
      AggregateTotal(lines[..n]);
      TotalPlus(Values(aggs), ln.account, ln.value);
      assert Values(Aggregate(lines)) == Values(aggs)[ln.account := ValueIn(Values(aggs))(ln.account) + ln.value];
    }
  }

  lemma NothingTotal()
    ensures Total(map[]) == 0.0
  {
    var none: map<string, real> := map[];
    assert none.Keys == {};
  }

  lemma {:induction false} AggregateAccounts(lines: seq<NetWorthLine>, a: string)
    requires a in Aggregate(lines)
    ensures exists i | 0 <= i < |lines| :: lines[i].account == a
  {
    hide AddLine;
    var n := |lines| - 1;
    if a == lines[n].account {
      assert lines[n].account == a;
    } else {
      AggregateAccounts(lines[..n], a);
      var i :| 0 <= i < n && lines[..n][i].account == a;
      assert lines[i].account == a;
    }
  }

  function PartValue(a: Agg): string -> real {
    c => PartOf(a, c).value
  }

  /** An account's commodities add up to its value. */
  ghost predicate PartsAddUp(a: Agg) {
    SumOver(a.parts.Keys, PartValue(a)) == a.value
  }

  lemma AddLineAddsUp(a: Agg, ln: NetWorthLine)
    requires PartsAddUp(a)
    ensures PartsAddUp(AddLine(a, ln))
  {
    var after := AddLine(a, ln);
    var rest := a.parts.Keys - {ln.commodity};
    SumRemove(after.parts.Keys, PartValue(after), ln.commodity);
    assert after.parts.Keys - {ln.commodity} == rest;
    SumSame(rest, PartValue(after), PartValue(a));
    if ln.commodity in a.parts {
      SumRemove(a.parts.Keys, PartValue(a), ln.commodity);
    } else {
      assert rest == a.parts.Keys;
    }
  }

  lemma {:induction false} AggregateAddsUp(lines: seq<NetWorthLine>)
    ensures forall a | a in Aggregate(lines) :: PartsAddUp(Aggregate(lines)[a])
  {
    hide PartsAddUp, AddLine;
    if lines != [] {
      var n := |lines| - 1;
      AggregateAddsUp(lines[..n]);
      EmptyAddsUp();
      AddLineAddsUp(AggOf(Aggregate(lines[..n]), lines[n].account), lines[n]);
    }
  }

  lemma EmptyAddsUp()
    ensures PartsAddUp(EMPTY_AGG)
  {
  }

  /** Separates an account from a commodity in the path of a row. */
  const TREE_PATH_SEP := "\U{1F}"

  function PartRow(n: string, c: string, p: Part): Row {
    Row(n, n + TREE_PATH_SEP + c, c, AccountDepth(n) + 1, Some(p.units), c, p.value, false, p.unpriced)
  }

  function PartRows(n: string, cs: seq<string>, a: Agg): seq<Row> {
    if cs == [] then []
    else PartRows(n, cs[..|cs| - 1], a) + [PartRow(n, cs[|cs| - 1], PartOf(a, cs[|cs| - 1]))]
  }

  predicate SomeUnpriced(aggs: map<string, Agg>, n: string) {
    exists a | a in aggs :: AccountMatches(a, n) && aggs[a].unpriced
  }

  /** The row of a node; an account without children and with one commodity shows its units. */
  ghost function NodeRow(aggs: map<string, Agg>, marked: set<string>, n: string): Row {
    var a := AggOf(aggs, n);
    var row := Row(
      n, n, AccountLeaf(n), AccountDepth(n), None, "", Rollup(Values(aggs), n),
      n in marked || |a.parts| > 1, SomeUnpriced(aggs, n));
    if n !in marked && |a.parts| == 1 then
      PartNamed(a);
      var c := Min(a.parts.Keys);
      row.(units := Some(a.parts[c].units), commodity := c)
    else row
  }

  lemma PartNamed(a: Agg)
    requires |a.parts| == 1
    ensures a.parts.Keys != {}
  {
    assert |a.parts| == |a.parts.Keys|;
  }

  ghost function NodeRows(aggs: map<string, Agg>, marked: set<string>, n: string): seq<Row> {
    if Rollup(Values(aggs), n) == 0.0 then []
    else
      [NodeRow(aggs, marked, n)] +
      if n !in marked && |AggOf(aggs, n).parts| > 1
      then PartRows(n, Listing(AggOf(aggs, n).parts.Keys), AggOf(aggs, n))
      else []
  }

  ghost function NetWorthRows(names: seq<string>, aggs: map<string, Agg>, marked: set<string>): seq<Row> {
    if names == [] then []
    else NetWorthRows(names[..|names| - 1], aggs, marked) + NodeRows(aggs, marked, names[|names| - 1])
  }

  ghost function NetWorthTree(lines: seq<NetWorthLine>): seq<Row> {
    var aggs := Aggregate(lines);
    NetWorthRows(Listing(Nodes(aggs.Keys)), aggs, Marked(Nodes(aggs.Keys)))
  }

  lemma {:induction false} PartRowsBelowTop(n: string, cs: seq<string>, a: Agg)
    ensures SumTop(PartRows(n, cs, a)) == 0.0
  {
    hide AccountDepth;
    if cs != [] {
      var k := |cs| - 1;
      PartRowsBelowTop(n, cs[..k], a);
      assert PartRows(n, cs, a)[..|PartRows(n, cs, a)| - 1] == PartRows(n, cs[..k], a);
    }
  }

  lemma NodeRowsSum(aggs: map<string, Agg>, marked: set<string>, n: string)
    ensures SumTop(NodeRows(aggs, marked, n)) == TopShare(Values(aggs))(n)
  {
    hide Rollup, AccountDepth, AccountLeaf, SomeUnpriced, Values, Listing, PartRows;
    if Rollup(Values(aggs), n) != 0.0 {
      var row := NodeRow(aggs, marked, n);
      var parts := if n !in marked && |AggOf(aggs, n).parts| > 1
                   then PartRows(n, Listing(AggOf(aggs, n).parts.Keys), AggOf(aggs, n)) else [];
      PartRowsBelowTop(n, Listing(AggOf(aggs, n).parts.Keys), AggOf(aggs, n));
      SumTopConcat([row], parts);
      assert [row][..0] == [];
    }
  }

  lemma {:induction false} NetWorthRowsSum(names: seq<string>, aggs: map<string, Agg>, marked: set<string>)
    ensures SumTop(NetWorthRows(names, aggs, marked)) == SumNames(names, Values(aggs))
  {
    hide NodeRows, Values, TopShare;
    if names != [] {
      var n := |names| - 1;
      NetWorthRowsSum(names[..n], aggs, marked);
      NodeRowsSum(aggs, marked, names[n]);
      SumTopConcat(NetWorthRows(names[..n], aggs, marked), NodeRows(aggs, marked, names[n]));
    }
  }

  /** The top rows of the net worth tree add up to the net worth of the lines. */
  lemma NetWorthTreeTotal(lines: seq<NetWorthLine>)
    requires forall i | 0 <= i < |lines| :: Proper(lines[i].account)
    ensures SumTop(NetWorthTree(lines)) == SumLines(lines)
  {
    hide Nodes, Listing, Marked, Aggregate, NetWorthRows, SumNames, Proper, Total, SumLines;
    var aggs := Aggregate(lines);
    AggregateTotal(lines);
    forall a | a in aggs ensures Proper(a) {
      AggregateAccounts(lines, a);
    }
    assert Values(aggs).Keys == aggs.Keys;
    NamesSumToTotal(Values(aggs));
    NetWorthRowsSum(Listing(Nodes(aggs.Keys)), aggs, Marked(Nodes(aggs.Keys)));
  }

  function SumRows(rows: seq<Row>): real {
    if rows == [] then 0.0 else SumRows(rows[..|rows| - 1]) + rows[|rows| - 1].value
  }

  lemma {:induction false} PartRowsSum(n: string, s: set<string>, a: Agg)
    ensures SumRows(PartRows(n, Listing(s), a)) == SumOver(s, PartValue(a))
    decreases |s|
  {
    hide AccountDepth;
    if s != {} {
      var m := Min(s);
      PartRowsSum(n, s - {m}, a);
      PartRowsCons(n, m, Listing(s - {m}), a);
      SumRemove(s, PartValue(a), m);
    }
  }

  lemma {:induction false} PartRowsCons(n: string, c: string, cs: seq<string>, a: Agg)
    ensures SumRows(PartRows(n, [c] + cs, a)) == PartValue(a)(c) + SumRows(PartRows(n, cs, a))
    decreases |cs|
  {
    hide AccountDepth;
    var all := [c] + cs;
    var rows := PartRows(n, all, a);
    assert rows[..|rows| - 1] == PartRows(n, all[..|all| - 1], a);
    if cs == [] {
      assert all[..0] == [];
    } else {
      var k := |cs| - 1;
      assert all[..|all| - 1] == [c] + cs[..k];
      PartRowsCons(n, c, cs[..k], a);
      assert PartRows(n, cs, a)[..|PartRows(n, cs, a)| - 1] == PartRows(n, cs[..k], a);
    }
  }

  /** An account without children that holds several commodities: its commodity rows add up to its row. */
  lemma PartsSumToRow(lines: seq<NetWorthLine>, n: string)
    requires n != "" && n in Aggregate(lines) && n !in Marked(Nodes(Aggregate(lines).Keys))
    ensures var a := Aggregate(lines)[n];
            SumRows(PartRows(n, Listing(a.parts.Keys), a)) == Rollup(Values(Aggregate(lines)), n)
  {
    hide Nodes, Listing, Aggregate, Rollup, PartRows, SumRows;
    var aggs := Aggregate(lines);
    AggregateAddsUp(lines);
    PartRowsSum(n, aggs[n].parts.Keys, aggs[n]);
    RollupSplits(Values(aggs), n);
    assert Values(aggs).Keys == aggs.Keys;
    assert Children(Nodes(aggs.Keys), n) == {};
  }

  /* The loops. */

  function SetOf(xs: seq<string>): set<string> {
    set x | x in xs
  }

  /** The beginnings of a name, joined from its first i parts on. */
  function Begun(a: string, i: nat): set<string>
    requires i <= |Split(a)|
  {
    set k | 1 <= k <= i :: Join(Split(a)[..k])
  }

  lemma BegunAll(a: string)
    requires a != ""
    ensures Begun(a, |Split(a)|) == Nodes({a})
  {
    forall p ensures p in Begun(a, |Split(a)|) <==> IsNode({a}, p) {
      if k :| 1 <= k <= |Split(a)| && p == Join(Split(a)[..k]) {
        JoinIsPrefix(a, k);
        assert a in {a};
      }
      if IsNode({a}, p) {
        var k := PrefixIsJoin(a, p);
      }
    }
  }

  lemma NodesPlus(leaves: set<string>, a: string)
    ensures Nodes(leaves + {a}) == Nodes(leaves) + if a == "" then {} else Nodes({a})
  {
  }

  /** The inner loop: every beginning of one leaf becomes a node. */
  method AddBeginnings(nodes: set<string>, a: string) returns (r: set<string>)
    requires a != ""
    ensures r == nodes + Nodes({a})
  {
    hide Split, Join, Nodes;
    var parts := Split(a);
    r := nodes;
    var i := 1;
    while i <= |parts|
      invariant 1 <= i <= |parts| + 1
      invariant r == nodes + Begun(a, i - 1)
    {
      r := r + {Join(parts[..i])};
      i := i + 1;
    }
    BegunAll(a);
  }

  method NewAccountTree(leaves: seq<string>) returns (names: seq<string>, hasChild: set<string>)
    ensures names == Listing(Nodes(SetOf(leaves)))
    ensures hasChild == Marked(Nodes(SetOf(leaves)))
  {
    hide Nodes, Listing, LastColon;
    var nodes: set<string> := {};
    var k := 0;
    NoLeaves();
    while k < |leaves|
      invariant k <= |leaves| && nodes == Nodes(SetOf(leaves[..k]))
    {
      NodesPlus(SetOf(leaves[..k]), leaves[k]);
      assert SetOf(leaves[..k + 1]) == SetOf(leaves[..k]) + {leaves[k]};
      if leaves[k] != "" {
        nodes := AddBeginnings(nodes, leaves[k]);
      }
      k := k + 1;
    }
    assert leaves[..k] == leaves;
    names := List(nodes);
    ListingLists(nodes);
    hasChild := MarkParents(names);
    MarkedListed(names, nodes);
  }

  lemma NoLeaves()
    ensures Nodes(SetOf([])) == {}
  {
  }

  function MarkedIn(names: seq<string>): set<string> {
    set i | 0 <= i < |names| && LastColon(names[i]) >= 0 :: names[i][..LastColon(names[i])]
  }

  lemma MarkedListed(names: seq<string>, nodes: set<string>)
    requires forall n :: n in names <==> n in nodes
    ensures MarkedIn(names) == Marked(nodes)
  {
    forall p | p in MarkedIn(names) ensures p in Marked(nodes) {
      var i :| 0 <= i < |names| && LastColon(names[i]) >= 0 && p == names[i][..LastColon(names[i])];
      assert names[i] in nodes;
    }
    forall p | p in Marked(nodes) ensures p in MarkedIn(names) {
      var m :| m in nodes && LastColon(m) >= 0 && p == m[..LastColon(m)];
      assert m in names;
    }
  }

  /** The one pass that marks parents. */
  method MarkParents(names: seq<string>) returns (hasChild: set<string>)
    ensures hasChild == MarkedIn(names)
  {
    hide LastColon;
    hasChild := {};
    var k := 0;
    while k < |names|
      invariant k <= |names| && hasChild == MarkedIn(names[..k])
    {
      var i := LastColon(names[k]);
      MarkedNext(names, k);
      if i >= 0 {
        hasChild := hasChild + {names[k][..i]};
      }
      k := k + 1;
    }
    assert names[..k] == names;
  }

  lemma MarkedNext(names: seq<string>, k: nat)
    requires k < |names|
    ensures var i := LastColon(names[k]);
            MarkedIn(names[..k + 1]) == MarkedIn(names[..k]) + if i >= 0 then {names[k][..i]} else {}
  {
    hide LastColon;
    var i := LastColon(names[k]);
    forall p | p in MarkedIn(names[..k]) ensures p in MarkedIn(names[..k + 1]) {
      var j :| 0 <= j < k && LastColon(names[..k][j]) >= 0 && p == names[..k][j][..LastColon(names[..k][j])];
      assert names[..k + 1][j] == names[..k][j];
    }
    if i >= 0 {
      assert names[..k + 1][k] == names[k];
    }
    forall p | p in MarkedIn(names[..k + 1]) ensures p in MarkedIn(names[..k]) || (i >= 0 && p == names[k][..i]) {
      var j :| 0 <= j < k + 1 && LastColon(names[..k + 1][j]) >= 0
          && p == names[..k + 1][j][..LastColon(names[..k + 1][j])];
      assert j < k ==> names[..k][j] == names[..k + 1][j];
    }
  }

  /** One node's roll-up: the loop over all accounts, in any order. */
  method RollUp(vals: map<string, real>, n: string) returns (tot: real)
    ensures tot == Rollup(vals, n)
  {
    hide AccountMatches;
    tot := 0.0;
    var todo := vals.Keys;
    while todo != {}
      invariant todo <= vals.Keys
      invariant tot == SumOver(Below(vals.Keys - todo, n), ValueIn(vals))
      decreases |todo|
    {
      var a :| a in todo;
      var done := Below(vals.Keys - todo, n);
      var next := Below(vals.Keys - (todo - {a}), n);
      if AccountMatches(a, n) {
        tot := tot + vals[a];
        SumRemove(next, ValueIn(vals), a);
        assert next - {a} == done;
      } else {
        assert next == done;
      }
      todo := todo - {a};
    }
    assert vals.Keys - todo == vals.Keys;
  }

  /** The nonzero roll-ups of the names. */
  method RollUps(names: seq<string>, vals: map<string, real>) returns (rollup: map<string, real>)
    ensures forall n :: n in rollup <==> n in names && Rollup(vals, n) != 0.0
    ensures forall n | n in rollup :: rollup[n] == Rollup(vals, n)
  {
    hide Rollup;
    rollup := map[];
    var k := 0;
    while k < |names|
      invariant k <= |names|
      invariant forall n :: n in rollup <==> n in names[..k] && Rollup(vals, n) != 0.0
      invariant forall n | n in rollup :: rollup[n] == Rollup(vals, n)
    {
      var tot := RollUp(vals, names[k]);
      if tot != 0.0 {
        rollup := rollup[names[k] := tot];
      }
      k := k + 1;
    }
  }

  /** A section of the income statement; the accounts' sums are already converted. */
  method PnlTreeSection(sums: map<string, real>, op: string) returns (out: seq<Row>)
    ensures out == PnlTree(sums, op)
  {
    hide Nodes, Listing, Marked, Rollup, AccountLeaf, AccountDepth;
    var flat := map a | a in sums && sums[a] != 0.0 :: sums[a];
    if |flat| == 0 {
      EmptySection(flat);
      return [];
    }
    var leaves := List(flat.Keys);
    ListingLists(flat.Keys);
    assert SetOf(leaves) == flat.Keys;
    var names, hasChild := NewAccountTree(leaves);
    var rollup := RollUps(names, flat);
    out := [];
    var k := 0;
    while k < |names|
      invariant k <= |names| && out == PnlRows(names[..k], flat, hasChild, op)
    {
      var n := names[k];
      assert names[..k + 1][..k] == names[..k];
      if n in rollup {
        out := out + [Row(n, n, AccountLeaf(n), AccountDepth(n), None, op, rollup[n], n in hasChild, false)];
      }
      k := k + 1;
    }
    assert names[..k] == names;
  }

  lemma EmptySection(flat: map<string, real>)
    requires |flat| == 0
    ensures Listing(Nodes(flat.Keys)) == []
  {
    assert |flat| == |flat.Keys|;
    assert flat.Keys == {};
    NoLeaves();
    assert SetOf([]) == {};
  }

  /** The first loop over the lines. */
  method AggregateLines(lines: seq<NetWorthLine>) returns (aggs: map<string, Agg>)
    ensures aggs == Aggregate(lines)
  {
    aggs := map[];
    var k := 0;
    while k < |lines|
      invariant k <= |lines| && aggs == Aggregate(lines[..k])
    {
      var ln := lines[k];
      assert lines[..k + 1][..k] == lines[..k];
      var a := if ln.account in aggs then aggs[ln.account] else EMPTY_AGG;
      var p := if ln.commodity in a.parts then a.parts[ln.commodity] else EMPTY_PART;
      p := Part(p.units + ln.units, p.value + ln.value, p.unpriced || ln.unpriced);
      aggs := aggs[ln.account := Agg(a.value + ln.value, a.unpriced || ln.unpriced, a.parts[ln.commodity := p])];
      k := k + 1;
    }
    assert lines[..k] == lines;
  }

  /** Whether a line below n lacked a price: the same loop over all accounts. */
  method RollUpUnpriced(aggs: map<string, Agg>, n: string) returns (unpriced: bool)
    ensures unpriced == SomeUnpriced(aggs, n)
  {
    hide AccountMatches;
    unpriced := false;
    var todo := aggs.Keys;
    while todo != {}
      invariant todo <= aggs.Keys
      invariant unpriced <==> exists a | a in aggs.Keys - todo :: AccountMatches(a, n) && aggs[a].unpriced
      decreases |todo|
    {
      var a :| a in todo;
      if AccountMatches(a, n) && aggs[a].unpriced {
        unpriced := true;
      }
      todo := todo - {a};
    }
  }

  /** The rows of one account's commodities. */
  method CommodityRows(n: string, a: Agg) returns (rows: seq<Row>)
    ensures rows == PartRows(n, Listing(a.parts.Keys), a)
  {
    hide Listing, AccountDepth;
    var cs := List(a.parts.Keys);
    ListingLists(a.parts.Keys);
    rows := [];
    var k := 0;
    while k < |cs|
      invariant k <= |cs| && rows == PartRows(n, cs[..k], a)
    {
      var c := cs[k];
      assert cs[..k + 1][..k] == cs[..k];
      rows := rows + [Row(n, n + TREE_PATH_SEP + c, c, AccountDepth(n) + 1,
                          Some(a.parts[c].units), c, a.parts[c].value, false, a.parts[c].unpriced)];
      k := k + 1;
    }
    assert cs[..k] == cs;
  }

  /** The rows of one node with a nonzero roll-up. */
  method RowsOfNode(aggs: map<string, Agg>, hasChild: set<string>, n: string, value: real) returns (rows: seq<Row>)
    requires value == Rollup(Values(aggs), n) != 0.0
    ensures rows == NodeRows(aggs, hasChild, n)
  {
    hide Rollup, Values, AccountLeaf, AccountDepth, SomeUnpriced, PartRows, Listing;
    var child := n in hasChild;
    var a := if n in aggs then aggs[n] else EMPTY_AGG;
    var unpriced := RollUpUnpriced(aggs, n);
    var row := Row(n, n, AccountLeaf(n), AccountDepth(n), None, "", value, child || |a.parts| > 1, unpriced);
    if !child && |a.parts| == 1 {
      var c :| c in a.parts;
      OnlyPart(a, c);
      row := row.(commodity := c, units := Some(a.parts[c].units));
    }
    rows := [row];
    if !child && |a.parts| > 1 {
      var parts := CommodityRows(n, a);
      rows := rows + parts;
    }
  }

  lemma OnlyPart(a: Agg, c: string)
    requires c in a.parts && |a.parts| == 1
    ensures a.parts.Keys != {} && Min(a.parts.Keys) == c
  {
    var rest := a.parts.Keys - {c};
    assert |a.parts| == |a.parts.Keys| && |rest| == 0;
    assert rest == {};
  }

  /** The net worth tree of a report's lines. */
  method NetWorthTreeFromLines(lines: seq<NetWorthLine>) returns (out: seq<Row>)
    ensures out == NetWorthTree(lines)
  {
    hide Nodes, Listing, Marked, Rollup, NodeRows, AddLine;
    if |lines| == 0 {
      EmptySection(Values(Aggregate(lines)));
      return [];
    }
    var aggs := AggregateLines(lines);
    var leaves := List(aggs.Keys);
    ListingLists(aggs.Keys);
    assert SetOf(leaves) == aggs.Keys;
    var names, hasChild := NewAccountTree(leaves);
    var rollup := RollUps(names, Values(aggs));
    out := [];
    var k := 0;
    while k < |names|
      invariant k <= |names| && out == NetWorthRows(names[..k], aggs, hasChild)
    {
      var n := names[k];
      assert names[..k + 1][..k] == names[..k];
      NoRow(aggs, hasChild, n);
      if n in rollup {
        var rows := RowsOfNode(aggs, hasChild, n, rollup[n]);
        out := out + rows;
      }
      k := k + 1;
    }
    assert names[..k] == names;
  }

  lemma NoRow(aggs: map<string, Agg>, marked: set<string>, n: string)
    ensures Rollup(Values(aggs), n) == 0.0 ==> NodeRows(aggs, marked, n) == []
  {
  }
}
