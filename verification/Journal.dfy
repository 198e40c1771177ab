/** The journal against the balances, and what a transaction conserves. */
module Journal {
  import opened Ast
  import opened Names
  import opened Booking
  import opened Sums

  // ----- the journal explains every balance

  function LegAmount(fp: Filled, k: Key): real {
    if fp.units.Some? && Key(fp.account, fp.units.value.commodity) == k then fp.units.value.number else 0.0
  }

  /** Units moved on one account and commodity by the legs of a journal line. */
  function LegSum(filled: seq<Filled>, k: Key): real {
    if filled == [] then 0.0
    else LegSum(filled[..|filled| - 1], k) + LegAmount(filled[|filled| - 1], k)
  }

  function JournalSum(txns: seq<BookedTxn>, k: Key): real {
    if txns == [] then 0.0
    else JournalSum(txns[..|txns| - 1], k) + LegSum(txns[|txns| - 1].filled, k)
  }

  /** The same over the lines of transactions only; a line made by a pad has no postings of its own. */
  function TxnSum(txns: seq<BookedTxn>, k: Key): real {
    if txns == [] then 0.0
    else
      var last := txns[|txns| - 1];
      TxnSum(txns[..|txns| - 1], k) + if last.postings == [] then 0.0 else LegSum(last.filled, k)
  }

  /** Legs without a commodity stand in the journal of a transaction but are not posted. */
  function Unposted(txns: seq<BookedTxn>, k: Key): real {
    if k.commodity == "" then TxnSum(txns, k) else 0.0
  }

  ghost predicate Explained(s: State) {
    forall k :: BalOf(s.bal, k) == JournalSum(s.txns, k) - Unposted(s.txns, k)
  }

  lemma {:induction false} PostAllSums(bal: Balances, filled: seq<Filled>, k: Key)
    ensures BalOf(PostAll(bal, filled), k) == BalOf(bal, k) + if k.commodity == "" then 0.0 else LegSum(filled, k)
  {
    if filled != [] { PostAllSums(bal, filled[..|filled| - 1], k); }
  }

  lemma JournalSnoc(txns: seq<BookedTxn>, t: BookedTxn, k: Key)
    ensures JournalSum(txns + [t], k) == JournalSum(txns, k) + LegSum(t.filled, k)
    ensures TxnSum(txns + [t], k) == TxnSum(txns, k) + if t.postings == [] then 0.0 else LegSum(t.filled, k)
  {
    assert (txns + [t])[..|txns|] == txns;
  }

  lemma PadLineSums(pad: PendingPad, b: Directive, diff: real, k: Key)
    requires b.Balance?
    ensures var line := PadLine(pad, b, diff).filled;
            LegSum(line, k) == LegAmount(line[0], k) + LegAmount(line[1], k)
  {
    var line := PadLine(pad, b, diff).filled;
    assert line[..1] == [line[0]] && line[..1][..0] == [];
    assert LegSum(line[..1], k) == LegAmount(line[0], k);
  }

  lemma FirePadExplained(s: State, b: Directive)
    requires b.Balance? && b.account in s.pad && Explained(s)
    ensures Explained(FirePad(s, b))
  {
    hide LegSum, CheckAccount, JournalSum, TxnSum;
    var s' := FirePad(s, b);
    forall k ensures BalOf(s'.bal, k) == JournalSum(s'.txns, k) - Unposted(s'.txns, k) {
      var diff := Shortfall(s, b);
      JournalSnoc(s.txns, PadLine(s.pad[b.account], b, diff), k);
      PadLineSums(s.pad[b.account], b, diff, k);
    }
  }

  /** A transaction either books all its legs and one journal line, or moves no balance. */
  lemma CommitShape(s: State, t: Directive, ready: Ready)
    requires t.Transaction?
    ensures var s' := Commit(s, t, ready);
            || (s'.bal == s.bal && s'.txns == s.txns)
            || (s'.bal == PostAll(s.bal, ready.filled)
                && s'.txns == s.txns + [BookedTxn(t.meta, t.flag, t.postings, ready.filled)])
  {
  }

  lemma CommitExplained(s: State, t: Directive, ready: Ready)
    requires t.Transaction? && Explained(s) && (t.postings == [] ==> ready.filled == [])
    ensures Explained(Commit(s, t, ready))
  {
    CommitShape(s, t, ready);
    var line := BookedTxn(t.meta, t.flag, t.postings, ready.filled);
    var bal, txns := PostAll(s.bal, ready.filled), s.txns + [line];
    forall k ensures BalOf(bal, k) == JournalSum(txns, k) - Unposted(txns, k) {
      PostAllSums(s.bal, ready.filled, k);
      JournalSnoc(s.txns, line, k);
    }
  }

  lemma NoLegs(cfg: Config, s: State, t: Directive)
    requires t.Transaction? && Prepare(cfg, s, t).Some?
    ensures t.postings == [] ==> Prepare(cfg, s, t).value.filled == []
  {
    PlanLength(cfg, s, t.meta.date, t.postings);
  }

  lemma StepExplained(cfg: Config, s: State, d: Directive)
    requires Explained(s)
    ensures Explained(Apply(cfg, s, d))
  {
    hide PlanAll, Prepare, Commit, Explained;
    match d
    case Transaction(_, _, _) =>
      PrepareSome(cfg, s, d);
      DiagsUnexplained(s);
      if Prepare(cfg, s, d).Some? {
        NoLegs(cfg, s, d);
        CommitExplained(s, d, Prepare(cfg, s, d).value);
      }
    case Balance(_, _, _) =>
      BalanceExplained(cfg, s, d);
    case _ =>
      OtherExplained(cfg, s, d);
  }

  lemma DiagsUnexplained(s: State)
    requires Explained(s)
    ensures forall diags :: Explained(Report(s, diags))
  {
  }

  lemma BalanceExplained(cfg: Config, s: State, b: Directive)
    requires b.Balance? && Explained(s)
    ensures Explained(BookBalance(cfg, s, b))
  {
    hide Holds, BookBalance, FirePad;
    BalanceShape(cfg, s, b);
    if Fires(cfg, s, b) { FirePadExplained(s, b); }
  }

  lemma OtherExplained(cfg: Config, s: State, d: Directive)
    requires !d.Transaction? && !d.Balance? && Explained(s)
    ensures Explained(Apply(cfg, s, d))
  {
  }

  lemma {:induction false} RunExplained(cfg: Config, ds: seq<Directive>)
    ensures Explained(Run(cfg, EMPTY, ds))
  {
    hide Apply;
    if ds != [] {
      RunExplained(cfg, ds[..|ds| - 1]);
      StepExplained(cfg, Run(cfg, EMPTY, ds[..|ds| - 1]), ds[|ds| - 1]);
    }
  }

  // ----- legs stay on the accounts of the postings

  /** Filled legs stay on the accounts of the postings. */
  ghost predicate OnAccounts(filled: seq<Filled>, ps: seq<Posting>) {
    forall i | 0 <= i < |filled| :: HasAccount(ps, filled[i].account)
  }

  ghost predicate HasAccount(ps: seq<Posting>, a: string) {
    exists j | 0 <= j < |ps| :: ps[j].account == a
  }

  lemma {:induction false} PlanOnAccounts(cfg: Config, s: State, date: Date, ps: seq<Posting>)
    ensures var plan := PlanAll(cfg, s, date, ps);
            plan.Planned? ==>
              |plan.filled| == |ps| && forall i | 0 <= i < |ps| :: plan.filled[i].account == ps[i].account
  {
    hide CheckAccount, PlanLeg;
    if ps != [] {
      PlanOnAccounts(cfg, s, date, ps[..|ps| - 1]);
      LegAccount(cfg, s.inv, ps[|ps| - 1]);
    }
  }

  lemma LegAccount(cfg: Config, inv: Inventory, p: Posting)
    ensures PlanLeg(cfg, inv, p).Good? ==> PlanLeg(cfg, inv, p).filled.account == p.account
  {
  }

  lemma FillOnAccounts(cfg: Config, filled: seq<Filled>, r: nat, ws: seq<Weight>, ps: seq<Posting>)
    requires r < |filled| == |ps| && forall i | 0 <= i < |ps| :: filled[i].account == ps[i].account
    ensures OnAccounts(FillResidual(cfg, filled, r, ws), ps)
  {
    hide SumFor, ResidualCommodities;
    var out := FillResidual(cfg, filled, r, ws);
    forall i | 0 <= i < |out| ensures HasAccount(ps, out[i].account) {
      var extra := |out| - |filled|;
      if i < r {
        assert out[i] == filled[i];
      } else if i <= r + extra {
        assert out[i].account == ps[r].account;
      } else {
        assert out[i] == filled[i - extra];
      }
    }
  }

  lemma PreparedOnAccounts(cfg: Config, s: State, t: Directive)
    requires t.Transaction? && Prepare(cfg, s, t).Some?
    ensures OnAccounts(Prepare(cfg, s, t).value.filled, t.postings)
  {
    hide PlanAll, FillResidual, ResidualOps, UnbalancedDiags;
    var plan := PlanAll(cfg, s, t.meta.date, t.postings);
    PlanOnAccounts(cfg, s, t.meta.date, t.postings);
    PlanLength(cfg, s, t.meta.date, t.postings);
    if plan.residual.Some? {
      FillOnAccounts(cfg, plan.filled, plan.residual.value, TxnWeights(t.postings, plan.filled), t.postings);
    } else {
      assert forall i | 0 <= i < |t.postings| :: t.postings[i].account == plan.filled[i].account;
    }
  }

  // ----- when no leg is left without a commodity

  /** A cost or price with a number names a commodity. */
  predicate NamesItsAmounts(p: Posting) {
    && (ExplicitCost(p) && p.cost.value.number.Some? ==> p.cost.value.commodity != "")
    && (p.price.Some? && p.price.value.number.Some? ==> p.price.value.commodity != "")
  }

  predicate AmountsNamed(d: Directive) {
    d.Transaction? ==> forall i | 0 <= i < |d.postings| :: NamesItsAmounts(d.postings[i])
  }

  predicate LegNamed(fp: Filled) {
    fp.units.Some? ==> fp.units.value.commodity != ""
  }

  lemma LegIsNamed(cfg: Config, inv: Inventory, p: Posting)
    ensures PlanLeg(cfg, inv, p).Good? ==> LegNamed(PlanLeg(cfg, inv, p).filled)
  {
  }

  lemma {:induction false} PlanNamed(cfg: Config, s: State, date: Date, ps: seq<Posting>)
    ensures var plan := PlanAll(cfg, s, date, ps);
            plan.Planned? ==> forall i | 0 <= i < |plan.filled| :: LegNamed(plan.filled[i])
  {
    hide PlanLeg, CheckAccount;
    if ps != [] {
      PlanNamed(cfg, s, date, ps[..|ps| - 1]);
      LegIsNamed(cfg, s.inv, ps[|ps| - 1]);
    }
  }

  predicate WeightsNamed(ws: seq<Weight>) {
    forall i | 0 <= i < |ws| :: ws[i].commodity != ""
  }

  lemma {:induction false} AllWeightsNamed(ps: seq<Posting>, filled: seq<Filled>, demand: set<string>)
    requires |ps| == |filled| && forall i | 0 <= i < |ps| :: NamesItsAmounts(ps[i]) && LegNamed(filled[i])
    ensures WeightsNamed(Weights(ps, filled, demand))
  {
    hide NamesItsAmounts, LegNamed, LegWeight;
    if ps != [] {
      var n := |ps| - 1;
      AllWeightsNamed(ps[..n], filled[..n], demand);
      LegWeightNamed(ps[n], filled[n], demand);
    }
  }

  lemma LegWeightNamed(p: Posting, fp: Filled, demand: set<string>)
    requires NamesItsAmounts(p) && LegNamed(fp)
    ensures WeightsNamed(LegWeight(p, fp, demand))
  {
    hide CashFaceWeight;
  }

  // ----- a price without a commodity

  const NAMELESS := Posting("A", Some(RawAmount(Some(-1.0), "X")), None, Some(PriceSpec(Some(5.0), "", false)), false)
  const ABSORBING := Posting("B", None, None, None, false)
  const SOLD := Filled("A", Some(Amount(-1.0, "X")), None, false)
  const EMPTY_LEG := Filled("B", None, None, false)
  const NAMELESS_LEG := Filled("B", Some(Amount(5.0, "")), None, false)

  lemma NamelessPlanned(date: Date)
    ensures var plan := PlanAll(FRESH, EMPTY, date, [NAMELESS, ABSORBING]);
            plan.Planned? && plan.filled == [SOLD, EMPTY_LEG] && plan.ops == [] && plan.residual == Some(1)
  {
    hide CheckAccount;
    assert !IsSpace("X"[0]);
    PlanTwo(FRESH, EMPTY, date, NAMELESS, ABSORBING);
    assert PlanLeg(FRESH, map[], NAMELESS) == Good(SOLD, None);
    assert PlanLeg(FRESH, map[], ABSORBING) == Residual;
  }

  lemma NamelessWeighed()
    ensures TxnWeights([NAMELESS, ABSORBING], [SOLD, EMPTY_LEG]) == [Weight("", -5.0)]
  {
    var ps, fs := [NAMELESS, ABSORBING], [SOLD, EMPTY_LEG];
    var demand := FaceDemands(ps, fs);
    assert ps[..1] == [NAMELESS] && fs[..1] == [SOLD] && [NAMELESS][..0] == [] && [SOLD][..0] == [];
    assert Weights([NAMELESS], [SOLD], demand) == Weights([], [], demand) + LegWeight(NAMELESS, SOLD, demand);
  }

  lemma NamelessFilled()
    ensures FillResidual(FRESH, [SOLD, EMPTY_LEG], 1, [Weight("", -5.0)]) == [SOLD, NAMELESS_LEG]
  {
    var ws := [Weight("", -5.0)];
    assert ws[..0] == [] && SumFor(ws, "") == SumFor([], "") - 5.0;
    assert ws[0] in ws;
    assert Commodities(ws) == {""};
    assert ResidualCommodities(FRESH, ws) == {""};
    ListingUnique([""], {""});
    assert ResidualLegs(EMPTY_LEG, ws, [""])[0] == NAMELESS_LEG;
  }

  lemma NamelessBooked(meta: Meta)
    ensures var t := Transaction(meta, "*", [NAMELESS, ABSORBING]);
            var s := BookTxn(FRESH, EMPTY, t);
            && s.bal == map[Key("A", "X") := -1.0]
            && s.txns == [BookedTxn(meta, "*", t.postings, [SOLD, NAMELESS_LEG])]
  {
    hide PlanAll, TxnWeights, FillResidual;
    var t := Transaction(meta, "*", [NAMELESS, ABSORBING]);
    NamelessPlanned(meta.date);
    NamelessWeighed();
    NamelessFilled();
    var none: Inventory := map[];
    assert ResidualOps(none, [SOLD, NAMELESS_LEG][..1], []) == [] by { assert [SOLD][..0] == []; }
    assert Prepare(FRESH, EMPTY, t).value.filled == [SOLD, NAMELESS_LEG];
    assert Prepare(FRESH, EMPTY, t).value.ops == [];
    PostTwo(map[], SOLD, NAMELESS_LEG);
  }

  /** A price that names no commodity: the journal shows 5 on the absorbing account, its balance nothing. */
  lemma NamelessPriceSplits(meta: Meta)
    ensures var s := Run(FRESH, EMPTY, [Transaction(meta, "*", [NAMELESS, ABSORBING])]);
            JournalSum(s.txns, Key("B", "")) == 5.0 && BalOf(s.bal, Key("B", "")) == 0.0
  {
    hide BookTxn;
    var t := Transaction(meta, "*", [NAMELESS, ABSORBING]);
    NamelessBooked(meta);
    assert [t][..0] == [];
    assert Run(FRESH, EMPTY, [t]) == Apply(FRESH, Run(FRESH, EMPTY, []), t);
    var line := BookedTxn(meta, "*", t.postings, [SOLD, NAMELESS_LEG]);
    assert [] + [line] == [line];
    JournalSnoc([], line, Key("B", ""));
    assert [SOLD, NAMELESS_LEG][..1] == [SOLD] && [SOLD][..0] == [];
    assert LegSum([SOLD], Key("B", "")) == LegSum([], Key("B", "")) + 0.0;
  }

  // ----- conservation by the residual leg

  /** Units of one commodity moved by the legs of a journal line, over all accounts. */
  function CommSum(filled: seq<Filled>, c: string): real {
    if filled == [] then 0.0
    else CommSum(filled[..|filled| - 1], c) + CommAmount(filled[|filled| - 1], c)
  }

  function CommAmount(fp: Filled, c: string): real {
    if fp.units.Some? && fp.units.value.commodity == c then fp.units.value.number else 0.0
  }

  lemma {:induction false} CommSumConcat(p: seq<Filled>, q: seq<Filled>, c: string)
    ensures CommSum(p + q, c) == CommSum(p, c) + CommSum(q, c)
  {
    if q == [] {
      assert p + q == p;
    } else {
      assert (p + q)[..|p + q| - 1] == p + q[..|q| - 1];
      CommSumConcat(p, q[..|q| - 1], c);
    }
  }

  lemma {:induction false} ResidualLegsSum(fp: Filled, ws: seq<Weight>, cs: seq<string>, c: string)
    requires forall i, j | 0 <= i < j < |cs| :: cs[i] != cs[j]
    ensures CommSum(ResidualLegs(fp, ws, cs), c) == if c in cs then -SumFor(ws, c) else 0.0
  {
    if cs != [] {
      var cs', last := cs[..|cs| - 1], cs[|cs| - 1];
      ResidualLegsSum(fp, ws, cs', c);
      assert cs == cs' + [last] && last !in cs';
      assert ResidualLegs(fp, ws, cs)[..|cs'|] == ResidualLegs(fp, ws, cs');
    }
  }

  /** The legs an empty leg is expanded to. */
  ghost function Expansion(cfg: Config, fp: Filled, ws: seq<Weight>): seq<Filled> {
    var cs := Listing(ResidualCommodities(cfg, ws));
    if cs == [] then [fp.(units := Some(Amount(0.0, "")))] else ResidualLegs(fp, ws, cs)
  }

  lemma ExpansionConserves(cfg: Config, fp: Filled, ws: seq<Weight>, c: string)
    ensures var left := SumFor(ws, c) + CommSum(Expansion(cfg, fp, ws), c);
            left == if c in ResidualCommodities(cfg, ws) then 0.0 else SumFor(ws, c)
  {
    var cs := ResidualCommodities(cfg, ws);
    ListingLists(cs);
    if Listing(cs) == [] {
      var z := fp.(units := Some(Amount(0.0, "")));
      assert [z][..0] == [];
    } else {
      var l := Listing(cs);
      forall i, j | 0 <= i < j < |l| ensures l[i] != l[j] { NameAsymmetric(l[i], l[j]); }
      ResidualLegsSum(fp, ws, l, c);
    }
  }

  lemma {:induction false} AbsentSumsToZero(ws: seq<Weight>, c: string)
    requires c !in Commodities(ws)
    ensures SumFor(ws, c) == 0.0
  {
    if ws != [] {
      var w := ws[|ws| - 1];
      assert w in ws && w.commodity in Commodities(ws);
      forall v | v in ws[..|ws| - 1] ensures v.commodity in Commodities(ws) { assert v in ws; }
      AbsentSumsToZero(ws[..|ws| - 1], c);
    }
  }

  ghost predicate WithinTol(cfg: Config, x: real, c: string) {
    x == 0.0 || Abs(x) <= Tol(cfg, c)
  }

  /** The filled legs are the planned ones, with the empty leg replaced by its expansion. */
  lemma FillReplaces(cfg: Config, filled: seq<Filled>, r: nat, ws: seq<Weight>)
    requires r < |filled|
    ensures FillResidual(cfg, filled, r, ws) == filled[..r] + Expansion(cfg, filled[r], ws) + filled[r + 1..]
  {
  }

  ghost function ImbalanceReported(diags: Diags): bool {
    exists d | d in diags :: d.Unbalanced?
  }

  lemma NextNotUnbalanced(cfg: Config, s: State, date: Date, p: Posting, plan: Plan)
    requires !ImbalanceReported(plan.diags)
    ensures !ImbalanceReported(PlanNext(cfg, s, date, p, plan).diags)
  {
    assert !ImbalanceReported(CheckAccount(s, date, p.account));
    var leg := PlanLeg(cfg, s.inv, p);
    assert leg.Bad? ==> !leg.diag.Unbalanced?;
  }

  lemma {:induction false} PlanNotUnbalanced(cfg: Config, s: State, date: Date, ps: seq<Posting>)
    ensures !ImbalanceReported(PlanAll(cfg, s, date, ps).diags)
  {
    hide PlanNext;
    if ps != [] {
      PlanNotUnbalanced(cfg, s, date, ps[..|ps| - 1]);
      NextNotUnbalanced(cfg, s, date, ps[|ps| - 1], PlanAll(cfg, s, date, ps[..|ps| - 1]));
    }
  }

  lemma UnbalancedExactly(cfg: Config, ws: seq<Weight>)
    ensures ImbalanceReported(UnbalancedDiags(cfg, ws)) <==> Unabsorbed(cfg, ws) != {}
  {
    var u := Unabsorbed(cfg, ws);
    if c :| c in u {
      assert Unbalanced(c, SumFor(ws, c)) in UnbalancedDiags(cfg, ws);
    } else {
      assert UnbalancedDiags(cfg, ws) == multiset{};
    }
  }

  /** What the explicit legs and the expansion of the empty leg leave over in one commodity. */
  ghost function Remainder(cfg: Config, fp: Filled, ws: seq<Weight>, c: string): real {
    SumFor(ws, c) + CommSum(Expansion(cfg, fp, ws), c)
  }

  lemma RemainderWithin(cfg: Config, fp: Filled, ws: seq<Weight>, c: string)
    ensures WithinTol(cfg, Remainder(cfg, fp, ws, c), c)
    ensures Abs(SumFor(ws, c)) > Tol(cfg, c) ==> Remainder(cfg, fp, ws, c) == 0.0
  {
    ExpansionConserves(cfg, fp, ws, c);
    if c !in Commodities(ws) { AbsentSumsToZero(ws, c); }
  }

  /**
    Conservation with an empty leg: it is replaced, in place, by legs that leave exactly nothing
    of every commodity beyond tolerance, and leave the others within tolerance; no imbalance is
    reported.
  */
  lemma ResidualConserves(cfg: Config, s: State, t: Directive)
    requires t.Transaction?
    requires var plan := PlanAll(cfg, s, t.meta.date, t.postings); plan.Planned? && plan.residual.Some?
    ensures var plan := PlanAll(cfg, s, t.meta.date, t.postings);
            var r, ready := plan.residual.value, Prepare(cfg, s, t).value;
            && |plan.filled| == |t.postings| && r < |plan.filled|
            && var fp, ws := plan.filled[r], TxnWeights(t.postings, plan.filled);
            && ready.filled == plan.filled[..r] + Expansion(cfg, fp, ws) + plan.filled[r + 1..]
            && !ImbalanceReported(ready.diags)
            && forall c :: WithinTol(cfg, Remainder(cfg, fp, ws, c), c)
                           && (Abs(SumFor(ws, c)) > Tol(cfg, c) ==> Remainder(cfg, fp, ws, c) == 0.0)
  {
    PlanLength(cfg, s, t.meta.date, t.postings);
    PlanNotUnbalanced(cfg, s, t.meta.date, t.postings);
    var plan := PlanAll(cfg, s, t.meta.date, t.postings);
    var fp, ws := plan.filled[plan.residual.value], TxnWeights(t.postings, plan.filled);
    FillReplaces(cfg, plan.filled, plan.residual.value, ws);
    forall c ensures WithinTol(cfg, Remainder(cfg, fp, ws, c), c)
                     && (Abs(SumFor(ws, c)) > Tol(cfg, c) ==> Remainder(cfg, fp, ws, c) == 0.0) {
      RemainderWithin(cfg, fp, ws, c);
    }
  }

  lemma AllAbsorbed(cfg: Config, ws: seq<Weight>)
    ensures Unabsorbed(cfg, ws) == {} <==>
            forall c ::
              WithinTol(cfg, SumFor(ws, c), c) && (c in Commodities(ws) ==> Abs(SumFor(ws, c)) <= Tol(cfg, c))
  {
    if Unabsorbed(cfg, ws) == {} {
      forall c
        ensures WithinTol(cfg, SumFor(ws, c), c) && (c in Commodities(ws) ==> Abs(SumFor(ws, c)) <= Tol(cfg, c))
      {
        assert c !in Unabsorbed(cfg, ws);
        if c !in Commodities(ws) { AbsentSumsToZero(ws, c); }
      }
    } else {
      var c :| c in Unabsorbed(cfg, ws);
      assert c in Commodities(ws) && !(Abs(SumFor(ws, c)) <= Tol(cfg, c));
    }
  }

  /** Planning reports no imbalance, so the report is about the weights. */
  lemma ReportedIsUnabsorbed(cfg: Config, s: State, t: Directive)
    requires t.Transaction?
    requires var plan := PlanAll(cfg, s, t.meta.date, t.postings); plan.Planned? && plan.residual.None?
    ensures var plan := PlanAll(cfg, s, t.meta.date, t.postings);
            && |plan.filled| == |t.postings|
            && Prepare(cfg, s, t).Some? && Prepare(cfg, s, t).value.filled == plan.filled
            && Prepare(cfg, s, t).value.ops == plan.ops
            && (ImbalanceReported(Prepare(cfg, s, t).value.diags) <==>
                  Unabsorbed(cfg, TxnWeights(t.postings, plan.filled)) != {})
  {
    hide PlanAll, TxnWeights, Unabsorbed, UnbalancedDiags;
    PlanLength(cfg, s, t.meta.date, t.postings);
    PlanNotUnbalanced(cfg, s, t.meta.date, t.postings);
    var plan := PlanAll(cfg, s, t.meta.date, t.postings);
    var ws := TxnWeights(t.postings, plan.filled);
    UnbalancedExactly(cfg, ws);
    var u := UnbalancedDiags(cfg, ws);
    assert ImbalanceReported(plan.diags + u) <==> ImbalanceReported(u) by {
      if d :| d in u && d.Unbalanced? { assert d in plan.diags + u; }
    }
  }

  /** Conservation without an empty leg: an imbalance is reported exactly when a sum is beyond tolerance. */
  lemma ImbalanceReportedExactly(cfg: Config, s: State, t: Directive)
    requires t.Transaction?
    requires var plan := PlanAll(cfg, s, t.meta.date, t.postings); plan.Planned? && plan.residual.None?
    ensures var plan := PlanAll(cfg, s, t.meta.date, t.postings);
            var ready := Prepare(cfg, s, t).value;
            && |plan.filled| == |t.postings| && ready.filled == plan.filled
            && var ws := TxnWeights(t.postings, plan.filled);
            && (!ImbalanceReported(ready.diags) <==>
                  forall c :: WithinTol(cfg, SumFor(ws, c), c)
                              && (c in Commodities(ws) ==> Abs(SumFor(ws, c)) <= Tol(cfg, c)))
  {
    ReportedIsUnabsorbed(cfg, s, t);
    AllAbsorbed(cfg, TxnWeights(t.postings, PlanAll(cfg, s, t.meta.date, t.postings).filled));
  }

  // ----- where legs without a commodity come from

  lemma {:induction false} LegSumConcat(p: seq<Filled>, q: seq<Filled>, k: Key)
    ensures LegSum(p + q, k) == LegSum(p, k) + LegSum(q, k)
  {
    if q == [] {
      assert p + q == p;
    } else {
      assert (p + q)[..|p + q| - 1] == p + q[..|q| - 1];
      LegSumConcat(p, q[..|q| - 1], k);
    }
  }

  lemma {:induction false} ResidualLegsOn(fp: Filled, ws: seq<Weight>, cs: seq<string>, k: Key)
    requires forall i, j | 0 <= i < j < |cs| :: cs[i] != cs[j]
    ensures LegSum(ResidualLegs(fp, ws, cs), k) ==
            if fp.account == k.account && k.commodity in cs then -SumFor(ws, k.commodity) else 0.0
  {
    hide SumFor;
    if cs != [] {
      var cs', last := cs[..|cs| - 1], cs[|cs| - 1];
      ResidualLegsOn(fp, ws, cs', k);
      assert cs == cs' + [last] && last !in cs';
      hide LegAmount;
      var legs := ResidualLegs(fp, ws, cs);
      ResidualAmount(fp, ws, last, k);
      assert legs[..|cs'|] == ResidualLegs(fp, ws, cs') && legs[|cs'|] == ResidualLeg(fp, ws, last);
      assert LegSum(legs, k) == LegSum(legs[..|cs'|], k) + LegAmount(legs[|cs'|], k);
    }
  }

  lemma ResidualAmount(fp: Filled, ws: seq<Weight>, c: string, k: Key)
    ensures LegAmount(ResidualLeg(fp, ws, c), k) ==
            if fp.account == k.account && k.commodity == c then -SumFor(ws, c) else 0.0
  {
  }

  /** What the expansion of an empty leg puts on its account without a commodity. */
  lemma ExpansionNameless(cfg: Config, fp: Filled, ws: seq<Weight>, a: string)
    ensures LegSum(Expansion(cfg, fp, ws), Key(a, "")) ==
            if fp.account == a && Abs(SumFor(ws, "")) > Tol(cfg, "") then -SumFor(ws, "") else 0.0
  {
    hide SumFor, Tol, Listing;
    var cs := ResidualCommodities(cfg, ws);
    ListingLists(cs);
    var l := Listing(cs);
    if "" !in Commodities(ws) { AbsentSumsToZero(ws, ""); }
    if l == [] {
      var z := fp.(units := Some(Amount(0.0, "")));
      assert [z][..0] == [];
      assert LegSum([z], Key(a, "")) == 0.0;
      assert "" !in cs;
    } else {
      forall i, j | 0 <= i < j < |l| ensures l[i] != l[j] { NameAsymmetric(l[i], l[j]); }
      ResidualLegsOn(fp, ws, l, Key(a, ""));
    }
  }

  /** The amount without a commodity that a booked transaction shows on an account: nothing unless its
      empty leg stands there and the weights without a commodity exceed the tolerance. */
  ghost function NamelessIn(cfg: Config, s: State, t: Directive, a: string): real
    requires t.Transaction?
  {
    PlanLength(cfg, s, t.meta.date, t.postings);
    var plan := PlanAll(cfg, s, t.meta.date, t.postings);
    if plan.Aborted? || plan.residual.None? || t.postings[plan.residual.value].account != a then 0.0
    else
      var left := SumFor(TxnWeights(t.postings, plan.filled), "");
      if Abs(left) > Tol(cfg, "") then -left else 0.0
  }

  lemma {:induction false} PlannedNameless(filled: seq<Filled>, a: string)
    requires forall i | 0 <= i < |filled| :: LegNamed(filled[i])
    ensures LegSum(filled, Key(a, "")) == 0.0
  {
    if filled != [] { PlannedNameless(filled[..|filled| - 1], a); }
  }

  lemma NamelessLeg(cfg: Config, s: State, t: Directive, a: string)
    requires t.Transaction? && Prepare(cfg, s, t).Some?
    ensures LegSum(Prepare(cfg, s, t).value.filled, Key(a, "")) == NamelessIn(cfg, s, t, a)
  {
    hide PlanAll, FillResidual, TxnWeights, ResidualOps, LegSum, SumFor, Expansion, Tol;
    PlanLength(cfg, s, t.meta.date, t.postings);
    PlanNamed(cfg, s, t.meta.date, t.postings);
    PlanOnAccounts(cfg, s, t.meta.date, t.postings);
    var plan := PlanAll(cfg, s, t.meta.date, t.postings);
    var filled := plan.filled;
    if plan.residual.None? {
      PlannedNameless(filled, a);
    } else {
      var r, ws := plan.residual.value, TxnWeights(t.postings, filled);
      FillReplaces(cfg, filled, r, ws);
      ExpansionNameless(cfg, filled[r], ws, a);
      LegSumConcat(filled[..r] + Expansion(cfg, filled[r], ws), filled[r + 1..], Key(a, ""));
      LegSumConcat(filled[..r], Expansion(cfg, filled[r], ws), Key(a, ""));
      PlannedNameless(filled[..r], a);
      PlannedNameless(filled[r + 1..], a);
    }
  }

  /** The same over a run: the sum over its booked transactions. */
  ghost function NamelessTotal(cfg: Config, ds: seq<Directive>, a: string): real {
    if ds == [] then 0.0
    else
      var ds', d := ds[..|ds| - 1], ds[|ds| - 1];
      var s := Run(cfg, EMPTY, ds');
      NamelessTotal(cfg, ds', a) +
      if d.Transaction? && Run(cfg, EMPTY, ds).txns != s.txns then NamelessIn(cfg, s, d, a) else 0.0
  }

  lemma StepNameless(cfg: Config, s: State, d: Directive, a: string)
    ensures TxnSum(Apply(cfg, s, d).txns, Key(a, "")) == TxnSum(s.txns, Key(a, "")) +
            if d.Transaction? && Apply(cfg, s, d).txns != s.txns then NamelessIn(cfg, s, d, a) else 0.0
  {
    hide BookTxn, BookBalance, TxnSum, NamelessIn;
    match d
    case Transaction(_, _, _) => TxnNameless(cfg, s, d, a);
    case Balance(_, _, _) => BalanceNameless(cfg, s, d, a);
    case _ =>
  }

  lemma TxnNameless(cfg: Config, s: State, t: Directive, a: string)
    requires t.Transaction?
    ensures TxnSum(BookTxn(cfg, s, t).txns, Key(a, "")) == TxnSum(s.txns, Key(a, "")) +
            if BookTxn(cfg, s, t).txns != s.txns then NamelessIn(cfg, s, t, a) else 0.0
  {
    hide PlanAll, Prepare, Move, PostAll, LegSum, TxnSum, NamelessIn;
    PrepareSome(cfg, s, t);
    if Prepare(cfg, s, t).Some? {
      NoLegs(cfg, s, t);
      NoLegSum(Key(a, ""));
      NamelessLeg(cfg, s, t, a);
      JournalSnoc(s.txns, BookedTxn(t.meta, t.flag, t.postings, Prepare(cfg, s, t).value.filled), Key(a, ""));
    }
  }

  lemma BalanceNameless(cfg: Config, s: State, b: Directive, a: string)
    requires b.Balance?
    ensures TxnSum(BookBalance(cfg, s, b).txns, Key(a, "")) == TxnSum(s.txns, Key(a, ""))
  {
    hide BookBalance, TxnSum, Holds, CheckAccount;
    BalanceShape(cfg, s, b);
    if Fires(cfg, s, b) {
      JournalSnoc(s.txns, PadLine(s.pad[b.account], b, Shortfall(s, b)), Key(a, ""));
    }
  }

  lemma NoLegSum(k: Key)
    ensures LegSum([], k) == 0.0
  {
  }

  lemma {:induction false} NamelessTotalIs(cfg: Config, ds: seq<Directive>, a: string)
    ensures TxnSum(Run(cfg, EMPTY, ds).txns, Key(a, "")) == NamelessTotal(cfg, ds, a)
  {
    hide Apply, NamelessIn;
    if ds != [] {
      NamelessTotalIs(cfg, ds[..|ds| - 1], a);
      StepNameless(cfg, Run(cfg, EMPTY, ds[..|ds| - 1]), ds[|ds| - 1], a);
    }
  }

  /**
    The journal explains the balances: in every state a run can reach, the balance of an account
    in a commodity is the sum of the journal's legs there, pad lines included, less the legs of
    transactions that name no commodity. So the two agree exactly for a named commodity, or when
    what the empty legs of booked transactions take over without a commodity cancels out.
  */
  lemma BalancesAreJournalSums(cfg: Config, ds: seq<Directive>)
    ensures Explained(Run(cfg, EMPTY, ds))
    ensures var s := Run(cfg, EMPTY, ds);
            forall k :: BalOf(s.bal, k) == JournalSum(s.txns, k)
                        <==> k.commodity != "" || NamelessTotal(cfg, ds, k.account) == 0.0
  {
    hide Run, JournalSum, TxnSum, NamelessTotal, BalOf;
    RunExplained(cfg, ds);
    forall k: Key | k.commodity == ""
      ensures TxnSum(Run(cfg, EMPTY, ds).txns, k) == NamelessTotal(cfg, ds, k.account)
    {
      NamelessTotalIs(cfg, ds, k.account);
    }
  }

  lemma NamedWeighsNothing(cfg: Config, s: State, t: Directive, a: string)
    requires t.Transaction? && AmountsNamed(t)
    ensures NamelessIn(cfg, s, t, a) == 0.0
  {
    hide PlanAll, FaceDemands, Weights, NamesItsAmounts, SumFor, Tol;
    PlanLength(cfg, s, t.meta.date, t.postings);
    PlanNamed(cfg, s, t.meta.date, t.postings);
    var plan := PlanAll(cfg, s, t.meta.date, t.postings);
    if plan.Planned? {
      AllWeightsNamed(t.postings, plan.filled, FaceDemands(t.postings, plan.filled));
      var ws := TxnWeights(t.postings, plan.filled);
      assert "" !in Commodities(ws);
      AbsentSumsToZero(ws, "");
    }
  }

  lemma {:induction false} NamedTotalsNothing(cfg: Config, ds: seq<Directive>, a: string)
    requires forall d | d in ds :: AmountsNamed(d)
    ensures NamelessTotal(cfg, ds, a) == 0.0
  {
    hide Run, AmountsNamed, NamelessIn;
    if ds != [] {
      var d := ds[|ds| - 1];
      NamedTotalsNothing(cfg, ds[..|ds| - 1], a);
      assert AmountsNamed(d);
      if d.Transaction? { NamedWeighsNothing(cfg, Run(cfg, EMPTY, ds[..|ds| - 1]), d, a); }
    }
  }

  /** When every numbered cost and price names a commodity, journal and balances agree everywhere. */
  lemma NamedStreamsAgree(cfg: Config, ds: seq<Directive>)
    requires forall d | d in ds :: AmountsNamed(d)
    ensures var s := Run(cfg, EMPTY, ds); forall k :: BalOf(s.bal, k) == JournalSum(s.txns, k)
  {
    hide Run, AmountsNamed, BalOf, JournalSum, NamelessTotal;
    BalancesAreJournalSums(cfg, ds);
    forall a ensures NamelessTotal(cfg, ds, a) == 0.0 {
      NamedTotalsNothing(cfg, ds, a);
    }
  }
}
