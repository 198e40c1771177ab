# Contapila: a verified model of the ledger engine

Contapila books plain-text double-entry journals. This project models, in Dafny, the parts of it in
which a wrong step is easy to make and hard to see, and proves what they promise.

- **Booking** (`Booking.dfy`, `EngineLoops.dfy`). The engine is a state machine over sorted directives:
  average-cost lots, bare balances, open and closed accounts, pending pads, the journal and the
  diagnostics. `Booking.dfy` says what each directive does as functions on that state; the class in
  `EngineLoops.dfy` runs the program's own loops over fields it updates in place, and each method is
  proved to compute those functions. `Purchases.dfy`, `Gains.dfy`, `Refusals.dfy` and
  `ResidualMoves.dfy` say what these functions mean for a transaction; `Journal.dfy`, `TrialBalance.dfy`,
  `InventorySafety.dfy`, `AverageCost.dfy`, `MixedTrades.dfy`, `Lifecycle.dfy`, `OpenDates.dfy`,
  `ClosedAccounts.dfy` and `Tolerances.dfy` prove what every run keeps.
- **Stream rewrites** (`Pads.dfy`, `AutoInterest.dfy`, `InterestPads.dfy`, `Projection.dfy`, `ClosingMarks.dfy`,
  `Closing.dfy`).
  Moving late pads to their date preserves meaning; expanding interest accounts reaches a fixed point, and
  what it adds is said directive by directive; the day-by-day projection has a closed form and is read off
  the directives; closing marks lead to balances that hold and accounts that stay closed.
- **Reports** (`Prices.dfy`, `Quotes.dfy`, `NetWorthSeries.dfy`, `BetweenSamples.dfy`, `AccountTree.dfy`,
  `TreeRows.dfy`, `Report.dfy`).
  The sorted price series against the map of last written rates; the one-pass net worth series against
  re-booking at every date, and what can change between its samples; the one-pass account tree against
  its definition, and roll-ups that add up.
- **Loading and editing** (`Loader.dfy`, `Splice.dfy`, `Rebuild.dfy`). Include expansion against full
  inlining; span surgery from the end against one simultaneous splice; the language server's rebuild
  generations over all interleavings of handlers, timer and rebuilds.

`Ast.dfy`, `Ordering.dfy`, `Sorting.dfy`, `Names.dfy` and `Sums.dfy` hold the directives, their booking
order, the stable sort, the order on names, and sums that do not depend on the order in which a hash map is visited.

Modelling choices: exact rationals are reals; a date is a number of days, 0 standing for the zero time;
maps of maps are flattened to maps keyed by account and commodity; a position that the program updates
through a pointer is a value replaced in its map; a loop over a hash map picks the next key arbitrarily,
so what is proved holds for every order.

Where a comment and the code differ, the code is followed. The interest projection's comment wonders
whether a balance comes after the transactions of its day; the code puts it before. The sell-error
branch is commented as one that should not happen, and it is proved not to.

Properties the code does not have on every input, each with an input on which it fails and the condition
under which it holds:

- The comparator of directives is not always an order: `Ordering.MixedLinesAreNotOrdered`,
  `Ordering.OrderIsWeak`.
- A leg without a commodity stands in the journal but in no balance: `Journal.NamelessPriceSplits`,
  `Journal.BalancesAreJournalSums`, `Journal.NamedStreamsAgree`.
- A pad posts to a closed account without a report: `ClosedAccounts.PadPostsToClosed`,
  `ClosedAccounts.LegsAfterCloseExactly`, `ClosedAccounts.NothingAfterClose`.
- A mixed transaction moves the average and can leave a negative cost: `MixedTrades.MixedGoesNegative`,
  `MixedTrades.MixedTransactions`.
- A transaction that is not booked can leave its first buy: `MixedTrades.LateMismatchLeavesBuy`,
  `InventorySafety.AllOrNothing`.
- Expanding a pad whose source is asserted, in the commodity of the balance it waits for, breaks that
  balance: `Pads.AssertedSourceBreaks`, `Pads.ExpandPadsPreserves`.
- Net worth can change on a day without a sample, by what a late pad takes from a counted account into
  another: `BetweenSamples.LooserToleranceLeavesPadLate`, `BetweenSamples.UnsampledDrains`. A caller can
  check that no pad of the written stream does so: `BetweenSamples.LoadedIsStepFunction`.
- Two incoming directives with one id of the file garble it: `Splice.RepeatedIdGarbles`,
  `Splice.PlanSeparate`, `Splice.MergeIsSplice`. Lines read with an id field never do, lines that name
  the id in their metadata only can: `Splice.ReadIdsOnce`.
- A session without a base context forgets an edit that is scheduled before the base arrives:
  `Rebuild.NoBaseForgets`, `Rebuild.RestsCurrent`. Only a server made by `New` lacks one
  (`internal/lsp/server.go:31-33`), which nothing in the repository calls; `Run` and `RunWith` give the
  session its context from the start.

To verify all files: `dafny verify dfyconfig.toml`.

## Model

| member | source | states |
|---|---|---|
| Sorting.SortIsStable | internal/booking/booking.go:178 | The sort used for directives and events returns a stable sort: sorted, and every class of equals in its written order. |
| Sorting.StableSortIsUnique | internal/booking/booking.go:178 | For a strict weak order there is exactly one stable sort, so the algorithm behind the sort call does not matter. |
| Sorting.SortSplit | internal/booking/booking.go:165-188 | Sorting a stream whose elements fall in a low and a high part is sorting the parts and concatenating. |
| Sorting.SortedCopy | internal/booking/booking.go:165-188 | The in-place sort of a copy returns that stable sort. |
| Ordering.OrderIsWeak | internal/booking/booking.go:178-188 | The comparator is a strict weak order of a stream if and only if no directive without a line stands with two different known lines of its day and rank. |
| Ordering.MixedLinesAreNotOrdered | internal/booking/booking.go:182-188 | Lines 1, none and 2 on one day: an input on which it is not an order. |
| Ordering.SortedDirectives | internal/booking/booking.go:165-188 | Sorts a copy of the stream; with comparable lines the result is its stable sort by date, rank and line. |
| Names.List | internal/prices/prices.go:165-176 | Collecting a set in any order and sorting it gives the one ascending listing of the set. |
| EngineLoops.FaceDemandOf | internal/booking/booking.go:535-562 | The loop computes the commodities the legs demand in face terms. |
| EngineLoops.Weigh | internal/booking/booking.go:371-385 | The weight map holds, per commodity, the sum of the legs' weights, and has no other keys. |
| EngineLoops.LeftOver | internal/booking/booking.go:391-397 | The sorted list of the commodities left over beyond tolerance. |
| EngineLoops.ExpandResidual | internal/booking/booking.go:390-420 | Replaces the empty leg in place by one leg per left-over commodity, or gives it a zero amount. |
| EngineLoops.InvOpAlready | internal/booking/booking.go:256-274 | A move of this size and direction on this lot is planned already, matched by magnitude only. |
| EngineLoops.PlanResidual | internal/booking/booking.go:421-459 | Plans the inventory moves of filled legs on lots that phase 1 did not plan. |
| EngineLoops.NetBoth | internal/booking/booking.go:253-255 | The two maps hold, per lot, the units bought and the units sold by the moves. |
| EngineLoops.CheckOversell | internal/booking/booking.go:469-492 | True exactly when some sold lot would end short, in whatever order the map yields the lots. |
| EngineLoops.Engine.constructor | internal/booking/booking.go:90-99 | A new engine is empty. |
| EngineLoops.Engine.CheckAccountAt | internal/booking/booking.go:220-229 | Adds exactly the not-opened, before-open and after-close reports. |
| EngineLoops.Engine.AddBalance | internal/booking/booking.go:688-693 | Adds to one balance and changes nothing else. |
| EngineLoops.Engine.BuyOne | internal/booking/booking.go:657-673 | Refuses a lot costed in another commodity and then changes nothing; otherwise adds units and cost. |
| EngineLoops.Engine.SellOne | internal/booking/booking.go:675-686 | Takes out units and cost; an emptied lot has its cost reset to zero. |
| EngineLoops.Engine.PlanPostings | internal/booking/booking.go:276-365 | Phase 1: the planned legs and moves, or the abort, with exactly the diagnostics of the planning function. |
| EngineLoops.Engine.CheckBalanced | internal/booking/booking.go:460-467 | One error per commodity beyond tolerance, nothing else changed. |
| EngineLoops.Engine.ApplyOps | internal/booking/booking.go:494-513 | Phase 3: all buys, then all sells, stopping at the first error with the earlier moves kept. |
| EngineLoops.Engine.PostBalances | internal/booking/booking.go:515-521 | Phase 4: every filled leg moves its balance. |
| EngineLoops.Engine.PrepareTransaction | internal/booking/booking.go:276-467 | Phases 1, 1b and the residual leg together. |
| EngineLoops.Engine.BookTransaction | internal/booking/booking.go:231-524 | The whole four-phase method computes the booking function on the engine's state. |
| EngineLoops.Engine.FirePending | internal/booking/booking.go:711-729 | A fired pad moves two balances, adds the pad's journal line and is removed. |
| EngineLoops.Engine.BookBalanceOf | internal/booking/booking.go:702-738 | A holding balance drops the pending pad; a failing one fires it or is reported. |
| EngineLoops.Engine.ApplyOne | internal/booking/booking.go:142-163 | Dispatch of one directive. |
| EngineLoops.Engine.ApplySorted | internal/booking/booking.go:136-140 | Booking a sorted stream is the fold of the step function. |
| EngineLoops.Engine.Book | internal/booking/booking.go:114-116 | Booking a stream is booking its stable sort. |
| Booking.TxnFrame | internal/booking/booking.go:231-524 | A transaction touches lots, balances, journal and diagnostics only. |
| Booking.BalanceShape | internal/booking/booking.go:702-738 | A balance moves what its pad moves if one fires, and otherwise at most pads and diagnostics. |
| Booking.StepGrows | internal/booking/booking.go:142-163 | No step takes a diagnostic back. |
| Booking.RunConcat | internal/booking/booking.go:136-140 | Booking a concatenation is booking its parts in turn. |
| Journal.BalancesAreJournalSums | internal/booking/booking.go:515-523 | In every reachable state each balance is the sum of the journal legs on that account and commodity, pad lines included, less the transaction legs that name no commodity; so the two agree exactly for a named commodity or when what empty legs of booked transactions take over without a commodity cancels out. |
| Journal.NamelessLeg | internal/booking/booking.go:387-421 | A transaction shows an amount without a commodity on an account exactly when its empty leg stands there and its weights without a commodity exceed the tolerance; the amount is their sum, negated. |
| Journal.NamedStreamsAgree | internal/booking/booking.go:515-523 | When every numbered cost and price of the stream names a commodity, journal and balances agree for every account and commodity. |
| Journal.NamelessPriceSplits | internal/booking/booking.go:404-421 | A price without a commodity and an empty leg: the journal shows an amount that no balance holds. |
| Journal.ResidualConserves | internal/booking/booking.go:387-459 | With an empty leg: it is replaced in place by legs that leave exactly nothing of a commodity beyond tolerance, and the rest stays within tolerance; no imbalance is reported. |
| Journal.ImbalanceReportedExactly | internal/booking/booking.go:460-467 | Without an empty leg an imbalance is reported exactly when a commodity is beyond tolerance. |
| Journal.RemainderWithin | internal/booking/booking.go:390-414 | Explicit weights plus the expansion leave zero, or at most the tolerance. |
| Journal.FirePadExplained | internal/booking/booking.go:711-728 | A fired pad keeps journal and balances in step. |
| Gains.CostIsWeighed | internal/booking/booking.go:371-385 | In every commodity the weights of the inventory legs sum to the cost the planned moves put into lots less what they take out, except that cash of a foreign cost at face value brings in its face amount in place of its cost. |
| Gains.TotalPriceIsCost | internal/booking/booking.go:593-611 | An increase priced in total goes into its lot at exactly that total. |
| Gains.PricedSaleBalances | internal/booking/booking.go:306-310 | A transaction of two postings, in either order, that sells at a price what is not held at cost moves no lot and is reported unbalanced exactly when the cash differs from the price by more than the tolerance. |
| Gains.SpendBalances | internal/booking/booking.go:535-589 | Cash of a foreign cost that pays in its own currency, in either order: its lot is reduced at the average, and an imbalance is reported exactly when the face amounts differ by more than the tolerance. |
| Gains.DepositBalances | internal/booking/booking.go:316-334 | A deposit to a costed lot, in either order: it joins at the average, and an imbalance is reported exactly when what is taken elsewhere differs from its face amount, or in a lot costed in itself from its cost, by more than the tolerance. |
| Gains.DemandedExactly | internal/booking/booking.go:535-562 | A currency is demanded in face terms exactly when some leg that is no reduction at cost weighs in it. |
| Gains.SpentAtFaceExactly | internal/booking/booking.go:564-589 | Cash taken out of a lot of a foreign cost weighs at face exactly when its currency is demanded, and at its cost otherwise. |
| Gains.SaleGains | internal/booking/booking.go:338-361 | A sale, its cash and one empty leg in any order: the empty leg gets units times average less the cash, or nothing within tolerance. |
| Purchases.StatedCostIsBooked | internal/booking/booking.go:593-611 | Units added at a stated unit cost go into their lot at units times that cost: the number in braces, else the number after one at sign, else the number after two divided by the units. |
| Purchases.UnstatedCostIsBooked | internal/booking/booking.go:306-334 | Units added without a stated cost join the lot at its average, are refused on an account that needs a cost, or are no lot. |
| Purchases.PurchaseBooks | internal/booking/booking.go:231-524 | A purchase paid by an empty leg, in either order: the lot gains units and units times the stated cost, and the empty leg pays exactly that, or nothing within tolerance. |
| Refusals.RefusedExactly | internal/booking/booking.go:276-365 | A transaction is refused in planning exactly when two postings are empty or one has no number, no commodity, no cost where it needs one, or braces off the average of the lot it reduces; it then changes only diagnostics. |
| Refusals.OversellExactly | internal/booking/booking.go:469-492 | Moves stop at the oversell check exactly when some lot would end below zero, and then change no lot. |
| Refusals.ShortSaleRefused | internal/booking/booking.go:338-358 | A short sale at a cost in braces is not booked, is reported as an oversell, and weighs units times that cost. |
| ResidualMoves.LegsMoveLots | internal/booking/booking.go:421-459 | Every filled leg on a lot has a move of its lot, direction and size, and every move added to the planned ones is that of such a leg, at the average of the lot. |
| ResidualMoves.EmptyLegMovesLot | internal/booking/booking.go:387-459 | An empty leg on an account with a lot of the cash it absorbs: the lot is reduced, or increased when it is costed, at its average. |
| TrialBalance.TrialBalanceBound | internal/booking/booking.go:371-467 | Over a run without costs, prices and imbalance errors, the accounts of a commodity sum to at most tolerance times the number of booked non-pad transactions. |
| InventorySafety.InventoryIsSafe | internal/booking/booking.go:469-513 | Over every stream: units are never negative, an empty lot has no cost, and the sell-error branch is never taken. |
| InventorySafety.SellsNeverFail | internal/booking/booking.go:469-513 | After the oversell check and the buys, every sell succeeds and leaves safe lots. |
| InventorySafety.MoveKeepsSafe | internal/booking/booking.go:657-686 | Moves keep lots safe and stop only at an oversell or a cost mismatch. |
| InventorySafety.AllOrNothing | internal/booking/booking.go:469-524 | A transaction without a journal line changes only diagnostics; its lots are unchanged exactly unless a buy after the first meets a cost mismatch. |
| InventorySafety.StoppedMove | internal/booking/booking.go:495-503 | A stopped move leaves the lots unchanged if and only if it did not stop after an earlier buy. |
| MixedTrades.LateMismatchLeavesBuy | internal/booking/booking.go:495-503 | A stream of two transactions on which that exception occurs: the second is not booked and its first buy stays. |
| AverageCost.ReductionKeepsAverage | internal/booking/booking.go:338-361 | A pure reduction keeps a lot's average and cost commodity; the last unit takes out exactly the cost left, before the reset. |
| AverageCost.RunReductionKeepsAverage | internal/booking/booking.go:231-524 | The same between two states of any run, for a booked transaction. |
| AverageCost.AverageBetweenCosts | internal/booking/booking.go:310-361 | When no transaction both buys into and sells from a lot, its average always lies between two unit costs stated for what was bought since it was last empty; buys that join at the average are not counted. |
| AverageCost.HistoryIsStated | internal/booking/booking.go:593-611 | Every such unit cost is one that a posting of the stream states in its own braces or price. |
| MixedTrades.MixedCost | internal/booking/booking.go:494-513 | The exact effect of a transaction on a lot: old cost plus what the buys cost less what is sold at the average before. |
| MixedTrades.MixedTransactions | internal/booking/booking.go:231-524 | Over a run: the cost turns negative exactly when old and bought cost less than what is sold, and the average is kept exactly when the buys are at it. |
| MixedTrades.MixedGoesNegative | internal/booking/booking.go:338-358 | A stream of two transactions that leaves a lot a negative cost. |
| Lifecycle.LifecycleExact | internal/booking/booking.go:220-229 | A sorted run reports an account as not opened exactly when some directive checks it and no open is dated on or before that directive, and as closed exactly when some directive checks it and a close is dated before. |
| Lifecycle.CheckExact | internal/booking/booking.go:220-229 | What one check finds depends only on the dates of the opens and closes of the stream, wherever they stand. |
| OpenDates.DatesExactly | internal/booking/booking.go:208-218 | In every run an account is open since its first open in the stream and closed since its last close; every open after the first is reported once and changes nothing. |
| Lifecycle.PlanReports | internal/booking/booking.go:278-295 | A transaction checks its postings up to the one that aborts it, and reports what these checks find. |
| Lifecycle.NeverBeforeOpen | internal/booking/booking.go:223-225 | The before-open report never occurs in a sorted run. |
| Lifecycle.BalancesHold | internal/booking/booking.go:702-738 | In an error-free run every balance directive holds at its place. |
| Lifecycle.PostingNotAfterClose | internal/booking/booking.go:226-228 | In a sorted run without errors no transaction has a posting on an account closed on an earlier day. |
| ClosedAccounts.OnlyPadsPostToClosed | internal/booking/booking.go:711-728 | In such a run the only legs posted to a closed account are the first legs of pads that fire: the padded account is not checked. |
| ClosedAccounts.LegsAfterCloseExactly | internal/booking/booking.go:711-728 | The journal has a leg dated after a close of its account if and only if a pad fires that is dated after a close of the account it pads. |
| ClosedAccounts.NothingAfterClose | internal/booking/booking.go:711-728 | Without a pad dated after a close of its account no leg of the journal is. |
| ClosedAccounts.PadPostsToClosed | internal/booking/booking.go:712-733 | A stream on which a pad posts to a closed account and nothing is reported. |
| EngineLoops.ExpandPads | internal/booking/pad.go:16-53 | The loop over a probe engine computes the expansion: one transaction per pad that fires on another day. |
| Pads.EarlyPad | internal/booking/pad.go:55-66 | Booking the early transaction moves its amount between two balances and nothing else. |
| Pads.LateBalance | internal/booking/booking.go:702-734 | At its balance the moved pad finds the balance holding, and both runs agree from there. |
| Pads.ExpandPadsPreserves | internal/booking/pad.go:16-53 | Booking the expanded stream gives the same balances, lots, open, closed and pending accounts and balance failures, and no pad fires late any more, when no source is asserted while its pad waits. |
| Pads.ExpandPadsIdempotent | internal/booking/pad.go:16-53 | Expanding twice is expanding once. |
| Pads.ExpansionMovesPads | internal/booking/pad.go:16-66 | Everything added is a transaction at a pad of the stream that moves one amount from its source to its account, for a later balance of the stream on another day. |
| Pads.AssertedSourceBreaks | internal/booking/pad.go:27-52 | A source asserted while its pad waits: expansion makes its balance fail, so that condition is needed. |
| Tolerances.RunSame | internal/booking/booking.go:102-112 | Configurations that agree on the commodities a stream names book it alike. |
| Tolerances.ExpandSame | internal/booking/pad.go:28-39 | And they find the same pads late. |
| AutoInterest.CollectAutoInterest | internal/booking/autointerest.go:29-64 | The scan finds the interest accounts in order of first open, with last open and close. |
| AutoInterest.SynthOpens | internal/booking/autointerest.go:93-104 | Opens for income counterparts that have none, each once. |
| AutoInterest.PadCurrencies | internal/booking/autointerest.go:147-164 | At a close: pad and zero balance for every currency without one. |
| AutoInterest.PadOne | internal/booking/autointerest.go:122-171 | One round of the rewriting loop. |
| AutoInterest.Expand | internal/booking/autointerest.go:75-173 | The whole expansion. |
| AutoInterest.ExpandKeeps | internal/booking/autointerest.go:122-172 | Every directive of the stream is kept. |
| AutoInterest.ExpandAutoInterestIdempotent | internal/booking/autointerest.go:66-75 | Expanding the expansion adds nothing, for every interleaving of pads, balances, closes and currencies. |
| InterestPads.ExpansionAdds | internal/booking/autointerest.go:75-190 | What is added to the stream: opens of income counterparts that have none; pads of interest accounts from their counterpart, right before a balance and dated the day before it but not before the open; zero balances for a close, in the currencies of the open. |
| InterestPads.BalancesArePadded | internal/booking/autointerest.go:128-138 | Every balance on an interest account has a pad on it since the balance before. |
| InterestPads.ClosesAreZeroed | internal/booking/autointerest.go:139-166 | Every close of an interest account has a zero balance in each currency of its open. |
| InterestPads.CounterpartsOpened | internal/booking/autointerest.go:86-112 | The income counterpart of every interest account is opened. |
| InterestPads.ExpansionKeepsOrder | internal/booking/autointerest.go:122-171 | The directives of the stream stand in the expansion in their order, each as often as before. |
| Projection.CollectEvents | internal/booking/autointerest.go:226-247 | The account's postings and balances as events, in stream order. |
| Projection.ApplyInterest | internal/booking/autointerest.go:261-273 | One day's interest on every nonzero commodity. |
| Projection.ApplyDay | internal/booking/autointerest.go:288-296 | The events of a day, taken from the cursor on. |
| Projection.Project | internal/booking/autointerest.go:195-308 | The day-by-day walk computes the projection. |
| Projection.ProjectionLaw | internal/booking/autointerest.go:255-307 | With no event before the open, projected units are the value at the last event times the product of one plus the rate over the later days; same-day balances come before postings. |
| Projection.ProjectionIsDaily | internal/booking/autointerest.go:195-317 | Projected units read off the directives: from the open on, alpha times the index plus the daily extra is earned on the units of the day before, the last balance of the day replaces them, and the postings of the day are added; with anything on the account before the open, nothing is projected. |
| Projection.OthersDoNotMatter | internal/booking/autointerest.go:226-250 | Dropping the postings and balances of other accounts changes nothing projected. |
| Projection.EarlyEventBlocks | internal/booking/autointerest.go:288 | An event before the open date is never consumed, nor any after it. |
| Projection.ProjectionBlocked | internal/booking/autointerest.go:288-307 | So such an event leaves nothing projected. |
| Projection.BalanceForgets | internal/booking/autointerest.go:291-293 | Nothing before the last balance on a commodity matters to it. |
| Closing.PlanMarked | internal/booking/closing.go:48-81 | One marked leg: its zero balance once per account and commodity, its close once per account without a written one. |
| Closing.PlanClosing | internal/booking/closing.go:31-109 | The loops compute the expansion. |
| Closing.BookWithClosing | internal/booking/closing.go:116-157 | Books once without marks; otherwise probes, expands, pads interest and books again. |
| Closing.FirstMarkedBalanced | internal/booking/closing.go:59-68 | The first marked leg of an account and commodity gets its zero balance on the next day. |
| Closing.FirstMarkedClosed | internal/booking/closing.go:69-80 | The first marked leg of an account that no close is written for closes it on the next day, and no other close of it is added. |
| Closing.NoSecondClose | internal/booking/closing.go:69-72 | No close is added for an account that has a written one. |
| Closing.ClosingAdds | internal/booking/closing.go:44-83 | Everything added is the zero balance or the close, on the next day, of a leg with closing metadata and a commodity. |
| Closing.NothingMarked | internal/booking/closing.go:129-136 | A stream without closing metadata is booked as it is. |
| Closing.MarksArePosted | internal/booking/closing.go:129-143 | A marked leg of the journal comes from a marked posting of the stream. |
| Closing.ClosingPadsInterest | internal/booking/closing.go:143-148 | With closing metadata every balance on an interest account, the added ones too, is padded. |
| Closing.NothingPostedAfterMarked | internal/booking/closing.go:137-156 | When the closing ends without an error, no transaction posts to the account of a marked leg later than the day after the leg, unless a close is written for it. |
| Closing.ClosedToZero | internal/booking/closing.go:111-157 | When the booking ends without an error, each first marked account and commodity is within tolerance of zero at that balance. |
| Closing.NothingPostedAfterClose | internal/booking/closing.go:69-80 | And nothing is posted after a close, synthetic or written, except by a pad dated after it; the exception occurs exactly when such a pad fires. |
| Prices.DB.constructor | internal/prices/prices.go:33-35 | A new database is empty. |
| Prices.DB.AddRate | internal/prices/prices.go:78-100 | Overwrites the point of the date, or appends and re-sorts. |
| Prices.DB.DirectRate | internal/prices/prices.go:137-149 | The loop finds the last point on or before the date. |
| Prices.DB.DirectOrInverseRate | internal/prices/prices.go:151-162 | The pair, else its nonzero inverse. |
| Prices.DB.ListCommodities | internal/prices/prices.go:165-176 | The sorted commodities of all keys that split. |
| Prices.DB.RateOf | internal/prices/prices.go:107-134 | Same commodity, direct or inverse, else the first hop in order. |
| Prices.SeriesListsWritten | internal/prices/prices.go:78-100 | After any adds a series holds the last written rate of each date, dates strictly increasing. |
| Prices.DirectIsLastWritten | internal/prices/prices.go:136-149 | A lookup returns the last written rate at the greatest date on or before asOf, and nothing exactly when there is none. |
| Prices.PairKeyInjective | internal/prices/prices.go:37 | Keys of commodities without a bar name one pair. |
| Prices.LaterPriceInvisible | internal/prices/prices.go:107-134 | A price after asOf changes no rate as of asOf, hops included. |
| Prices.LaterQuotesInvisible | internal/prices/prices.go:107-134 | The same for any number of later prices. |
| Prices.RatesAreReciprocal | internal/prices/prices.go:107-134 | With one direction per pair and no zero rates, a rate and its reverse multiply to one, through a hop too. |
| Quotes.DirectIsLastQuote | internal/prices/prices.go:137-149 | A direct lookup is the newest price written for the pair by the date, of one day the last written, and nothing exactly when none is written. |
| Quotes.RateIsRated | internal/prices/prices.go:107-163 | A rate is read off the written prices: the last price of the pair, else one over the last nonzero price of the reverse, else the product over the least commodity that leads from one to the other, at the earlier day. |
| NetWorthSeries.SortDoesNotMatter | internal/booking/booking.go:178 | With comparable lines every stable sort gives the same re-booked net worth and the same forward pass. |
| NetWorthSeries.ModelSortsStably | internal/booking/booking.go:165-188 | The modelled sort is one of these. |
| NetWorthSeries.SortOneDay | internal/engine/series.go:155-161 | Any stable sort up to a day is the sort up to the day before followed by the day alone. |
| NetWorthSeries.WalkIsAsOf | internal/engine/series.go:155-161 | With any stable sort, after each day the one engine is where re-booking up to that day ends. |
| NetWorthSeries.SamplesAreNetWorth | internal/engine/series.go:155-204 | With any stable sort, every sample of the forward pass equals the net worth re-booked at its date. |
| NetWorthSeries.SampledExactly | internal/engine/series.go:162-202 | A day of the calendar is sampled exactly when it is dated, in range and hit. |
| BetweenSamples.UnsampledDrains | internal/engine/series.go:165-201 | On a day of the range without a sample the re-booked net worth changes by exactly what pads that fire that day take from counted accounts into others, at the market of the day before. |
| BetweenSamples.UnsampledUnchanged | internal/engine/series.go:165-201 | So it stays as it was exactly when what these pads take has no value, above all when there are none. |
| BetweenSamples.ConstantBetweenSamples | internal/engine/series.go:165-204 | While no pad drains a counted account, net worth is constant from one sample to the next. |
| BetweenSamples.PadsStayCountedDrainNothing | internal/booking/booking.go:711-729 | If every pad that takes from a counted account pads a counted account, no pad drains one on any day. |
| BetweenSamples.LoadedIsStepFunction | internal/engine/engine.go:287-290 | For such a stream as written, loaded and expanded under any tolerances, net worth is constant from one sample to the next. |
| BetweenSamples.OnTimeDrainsNothing | internal/engine/series.go:165-198 | Pads that fire on their own day drain nothing on a day that touches no counted account. |
| BetweenSamples.ExpandedPadsOnTime | internal/engine/engine.go:287-290 | A stream expanded at loading has such pads when the tolerances of the ledger agree with the default on every commodity it names. |
| BetweenSamples.LooserToleranceLeavesPadLate | internal/engine/series.go:155 | A pad from a counted into an uncounted account, left late by a looser tolerance at loading: net worth changes on a day without a sample. |
| NetWorthSeries.GroupByDay | internal/engine/series.go:69-90 | The directives of each day in stream order. |
| NetWorthSeries.PriceDates | internal/engine/series.go:91-103 | The days with a price of a listed pair. |
| NetWorthSeries.CalendarOf | internal/engine/series.go:73-153 | Every day with a directive, a price, an extra or the terminal sample, once and in order. |
| NetWorthSeries.MarketValueIs | internal/engine/engine.go:814-827 | A market value is units times the rate, read off the written prices, from the commodity to the operating currency; without such a rate it is zero and flagged. |
| NetWorthSeries.WrittenPriceConverts | internal/engine/engine.go:818-822 | A price of the commodity in the operating currency multiplies; if there is none, one of the operating currency in the commodity divides. |
| NetWorthSeries.NetWorthIsSum | internal/engine/series.go:235-243 | Net worth is the sum, over the re-booked balances of asset and liability accounts, of units times the rate read off the written prices. |
| NetWorthSeries.MarketConvert | internal/engine/engine.go:814-827 | The conversion returns that value and flag for every log of prices the database was loaded from. |
| NetWorthSeries.NetWorthFromBook | internal/engine/series.go:235-243 | The sum over the map is order-independent and equals the worth of the balances. |
| NetWorthSeries.BalancesAsOf | internal/engine/engine.go:538-548 | Re-books the stream up to asOf in a fresh engine. |
| Report.CollectLines | internal/engine/engine.go:783-799 | The loop over the map lists every nonzero counted balance once and adds up their values. |
| Report.NetWorthReport | internal/engine/engine.go:777-807 | The report: one line for every nonzero balance of an asset or liability account, with its units, market value and flag, in order of account and commodity, adding up to the net worth. |
| Report.NetWorthTreeReport | internal/engine/networth_tree.go:24-31 | The tree and the total: the depth-0 rows add up to it. |
| Report.TreeTotalIsNetWorth | internal/engine/networth_tree.go:100-146 | The depth-0 rows of the tree of the report lines add up to the net worth re-booked at its date. |
| NetWorthSeries.IsHit | internal/engine/series.go:165-198 | The day deserves a sample. |
| NetWorthSeries.WalkBalanceSeries | internal/engine/series.go:63-205 | The forward pass computes the samples of the walk over a calendar. |
| NetWorthSeries.TrimZeroEdges | internal/engine/series.go:360-391 | Drops leading and trailing zero samples and only those. |
| Loader.LoadIsInline | internal/loader/loader.go:58-105 | A load equals the full inlining of all includes with only the first mention of each event kept, up to the same first error. |
| Loader.LoadFailsExactly | internal/loader/loader.go:71-104 | A load fails if and only if a chain of includes from the entry meets a cycle, an unreadable file or an unresolved include; the error it returns is met. |
| Loader.CycleExactly | internal/loader/loader.go:71-77 | When every include resolves, loading fails exactly when a cycle is reachable, and with the cycle error. |
| Loader.EachReachableOnce | internal/loader/loader.go:75-104 | A successful load emits exactly the directives of the reachable files, each once. |
| Loader.LoadKeepsOrder | internal/loader/loader.go:94-103 | A successful load keeps the directives of every file in their order. |
| Loader.ExpandIsInline | internal/loader/loader.go:58-105 | The same for a load in progress: finished files stay in an order that puts includes first. |
| Loader.WalkConcat | internal/loader/loader.go:94-103 | Loading a sequence of steps is loading its parts in turn. |
| Loader.GlobVisits | internal/loader/loader.go:145-167 | From the hits of a glob, in order, every readable file is visited and a hit that is gone is an error; directories and ignored files are never visited through it. |
| Loader.IncludeLoader.constructor | internal/loader/loader.go:46-49 | A new loader has seen nothing. |
| Loader.IncludeLoader.LoadOne | internal/loader/loader.go:58-105 | Cycle before seen before unreadable; the stack is restored on every exit. |
| Loader.IncludeLoader.LoadNew | internal/loader/loader.go:78-104 | Push, mark, load, pop. |
| Loader.IncludeLoader.LoadItems | internal/loader/loader.go:94-103 | The loop over a file's directives. |
| Loader.IncludeLoader.ExpandInclude | internal/loader/loader.go:107-133 | The cases of an include's target. |
| Loader.IncludeLoader.ExpandGlob | internal/loader/loader.go:135-171 | A glob: its files in order, and a warning when none was loaded. |
| Loader.IncludeLoader.LoadHits | internal/loader/loader.go:145-167 | The loop over the matches. |
| Loader.LoadFile | internal/loader/loader.go:36-56 | The three results of a load in terms of the inlining. |
| Rebuild.RunKeeps | internal/lsp/session.go:121-278 | What every interleaving keeps: numbered builds, current reads of the newest, every dirty mark on its way to a schedule. |
| Rebuild.InstalledIncrease | internal/lsp/session.go:267-274 | Installed snapshots have strictly increasing generations. |
| Rebuild.SnapshotIsCurrent | internal/lsp/session.go:133-156 | With nothing dirty and the newest generation installed, every read of the snapshot is the overlay text of now, save for a path being written. |
| Rebuild.OverlayIsLastWrite | internal/lsp/server.go:114-176 | Over every interleaving the overlay holds for each path the text of the last write to it, or nothing when that was a removal or there was none. |
| Rebuild.RestsCurrent | internal/lsp/session.go:121-156 | At rest, the snapshot shows the overlay as it is or the newest rebuild has failed, if and only if some schedule found the session dirty and with a base; with a base from the start every edit is enough. |
| Rebuild.LateBaseRests | internal/lsp/session.go:82-89 | A base that arrives before anything is scheduled is in time for every edit. |
| Rebuild.StartedExactly | internal/lsp/session.go:133-156 | A rebuild has started if and only if some schedule found the session dirty and with a base. |
| Rebuild.NoBaseForgets | internal/lsp/session.go:143-147 | In a session made without a context, a schedule before the base arrives clears the mark and starts nothing: the edit is forgotten. |
| Rebuild.Session.constructor | internal/lsp/session.go:66-80 | A new session is clean. |
| Rebuild.Session.SetOverlay | internal/lsp/server.go:118 | The overlay write of open, change and close. |
| Rebuild.Session.MarkDirty | internal/lsp/session.go:121-131 | Marks and re-arms the timer. |
| Rebuild.Session.BeginSave | internal/lsp/server.go:153-158 | The optional overlay write of a save. |
| Rebuild.Session.MarkSaved | internal/lsp/server.go:159-163 | A save marks and is about to schedule. |
| Rebuild.Session.FireTimer | internal/lsp/session.go:128-130 | The timer's callback is about to schedule. |
| Rebuild.Session.SetSessionBase | internal/lsp/session.go:82-89 | A nil base is ignored. |
| Rebuild.Session.ScheduleRebuild | internal/lsp/session.go:133-156 | Nothing when clean; clears the mark; starts the next generation when there is a base. |
| Rebuild.Session.ReadFile | internal/lsp/session.go:181-182 | A rebuild's read of the overlay. |
| Rebuild.Session.FinishRebuild | internal/lsp/session.go:267-278 | Swaps the snapshot only when no newer generation was started. |
| Splice.MergeIsSplice | internal/ingest/apply.go:58-119 | For disjoint spans that start on a directive's first byte, and no id of the file twice among the incoming, the merge is the simultaneous left-to-right splice plus appends; a span is never invalid. |
| Splice.PlanSeparate | internal/ingest/apply.go:65-84 | When every text can be formatted, the replacements do not overlap if and only if no two incoming directives share an id that the file has. |
| Splice.SpliceAllIsRender | internal/ingest/apply.go:86-106 | Replacing from end to start is replacing all at once. |
| Splice.SharedGaps | internal/ingest/apply.go:95-105 | File and result are woven from the same gaps; only each span, with at most one newline after it, is replaced. |
| Splice.MergeFailsExactly | internal/ingest/apply.go:65-69 | Such a merge fails exactly when an incoming directive cannot be formatted. |
| Splice.RepeatedIdGarbles | internal/ingest/apply.go:86-106 | Two texts for one id of the file: the second stands where the first starts and cuts it at the length of the old directive, or the span is invalid; the second simply wins exactly when the lengths agree. |
| Splice.TwoRatesGarble | internal/ingest/apply.go:79-106 | A file with one rate and two incoming rates of its id: the end of the longer first one stays as a line. |
| Splice.KeptAreLast | internal/ingest/jsonl.go:33-58 | Reading the incoming lines keeps exactly the last line of every id field, and every line without one. |
| Splice.ReadIdsOnce | internal/ingest/jsonl.go:46-56 | When ids are given by the id field, no id reaches the merge twice; an id in the metadata alone is not looked at. |
| Splice.ReadEntries | internal/ingest/jsonl.go:33-58 | The reading loop with its index of places. |
| Splice.IndexSpans | internal/ingest/apply.go:41-55 | The index of spans by id: last wins, a directive with an id and no span is an error. |
| Splice.IndexIsLast | internal/ingest/apply.go:41-55 | The index has every id of the file with the span of the last directive that has it, and fails exactly when a directive with an id has no span, naming the first. |
| Splice.AppendsAreOthers | internal/ingest/apply.go:65-84 | The appended texts are, in order, those of the incoming directives whose id the file does not have. |
| Splice.AppendedAtLine | internal/ingest/apply.go:108-118 | They are appended at the start of a line: after the file, and the newline it may lack. |
| Splice.BlankFileAppends | internal/ingest/apply.go:33-40 | In a blank file every text is appended, whatever its id; a file that is not blank and cannot be parsed fails. |
| Splice.Plan | internal/ingest/apply.go:65-84 | Replacements and appends in order. |
| Splice.SpliceSpan | internal/ingest/apply.go:91-105 | One replacement on the current text. |
| Splice.SpliceSorted | internal/ingest/apply.go:86-106 | The loop from the last span to the first. |
| Splice.AppendTexts | internal/ingest/apply.go:108-118 | Appends with one separating newline when needed. |
| Splice.Apply | internal/ingest/apply.go:29-120 | The whole merge. |
| AccountTree.JoinIsPrefix | internal/engine/account_tree.go:28-31 | Every joined beginning of a name is the name or one it lies under. |
| AccountTree.PrefixIsJoin | internal/engine/account_tree.go:28-31 | And every such name is a joined beginning. |
| AccountTree.HasChildExactly | internal/engine/account_tree.go:39-47 | One pass over the nodes marks exactly the names some name lies under. |
| AccountTree.NewAccountTree | internal/engine/account_tree.go:22-49 | Sorted nodes and marked parents. |
| AccountTree.MarkParents | internal/engine/account_tree.go:42-47 | The one pass. |
| AccountTree.RollupSplits | internal/engine/networth_tree.go:81-98 | A roll-up is the node's own value plus the roll-ups of the nodes immediately below. |
| AccountTree.TopsSum | internal/engine/networth_tree.go:83-93 | The depth-0 roll-ups in general: a leading colon makes everything count once more. |
| AccountTree.TopsSumToTotal | internal/engine/networth_tree.go:81-98 | When every account has a first part the depth-0 roll-ups add up to the total. |
| AccountTree.AggregateTotal | internal/engine/networth_tree.go:47-73 | Aggregation by account loses nothing. |
| AccountTree.PartsSumToRow | internal/engine/networth_tree.go:125-144 | An account's commodity rows add up to its row. |
| AccountTree.NetWorthTreeTotal | internal/engine/networth_tree.go:100-146 | The depth-0 rows add up to the values of the lines, although zero rows are dropped. |
| TreeRows.NodeRowReads | internal/engine/networth_tree.go:45-122 | A row read off the lines: the value below the node, unpriced when a line below is, a roll-up when a line stands under it or its own lines are of two commodities, with units when neither. |
| TreeRows.PartRowReads | internal/engine/networth_tree.go:125-144 | The row of one commodity of an account: units, value and flag of its lines. |
| TreeRows.DepthReads | internal/engine/account_tree.go:60-62 | The depth of a row counts the parts of its account after the first. |
| TreeRows.LeafReads | internal/engine/account_tree.go:52-57 | Its name is the last part of the account, unless that is empty. |
| AccountTree.PnlTreeTotal | internal/engine/pnl.go:26-74 | The same for a section of the income statement. |
| TreeRows.PnlRowReads | internal/engine/pnl.go:26-74 | A row of the statement: the sums of the accounts that belong to its node, added up, left out when zero; a roll-up when an account with a sum stands under it. |
| AccountTree.RollUp | internal/engine/networth_tree.go:84-93 | The loop over all accounts, in any order. |
| AccountTree.RollUps | internal/engine/pnl.go:45-56 | The nonzero roll-ups. |
| AccountTree.RollUpUnpriced | internal/engine/networth_tree.go:85-92 | Whether a line below lacked a price. |
| AccountTree.AggregateLines | internal/engine/networth_tree.go:46-73 | The first loop over the lines. |
| AccountTree.CommodityRows | internal/engine/networth_tree.go:125-143 | The sorted commodity rows of one account. |
| AccountTree.RowsOfNode | internal/engine/networth_tree.go:106-144 | The rows of one node. |
| AccountTree.NetWorthTreeFromLines | internal/engine/networth_tree.go:33-147 | The whole tree. |
| AccountTree.PnlTreeSection | internal/engine/pnl.go:26-74 | The whole section. |

## Left out

- Order and wording of booking diagnostics: they form a multiset of kinds, since two loops that emit them range over hash maps.
- Sorting.SortIsStable: models the unstable library sort too; it is used where keys are distinct, so the result is the same; the two equal starts of Splice.RepeatedIdGarbles stay in order, as the library sorts few elements by insertion.
- Ordering.SortedDirectives: promises a stable sort only when lines are comparable; otherwise the program's comparator is not an order and the result depends on the sorting algorithm.
- EngineLoops.NetBoth: the program adds up the nets while it plans; the model adds them up from the planned moves afterwards, which gives the same sums.
- Notes, events, queries, options, commodities and custom directives: the engine only stores or skips them.
- Metadata other than the closing mark, narration, payee, tags and links: booking does not read them.
- Diagnostics of the closing and interest rewrites: only the streams are modelled.
- Cancellation: a cancelled context returns early with an error and is not part of the model.
- Pads.ExpandPadsPreserves: requires padded accounts and their sources to carry no cost or price, balances to name a commodity, and nonnegative tolerances; lots are not moved by pads, so with costs the early transaction books differently.
- Pads.SourceQuiet: forbids a source's balance while its pad waits; the converse, that any such balance breaks the stream, is not claimed, since a later pad on the source can repair the final balances.
- TrialBalance.TrialBalanceBound: for streams without costs and prices, where weights are units; with costs the accounts of one commodity need not cancel.
- AverageCost.AverageBetweenCosts: excludes transactions that both buy and sell one lot; `MixedTrades.MixedTransactions` says what those do.
- Closing.FirstMarkedBalanced: for commodity names without the separator of the program's keys, as the journal's syntax gives; InterestPads.ClosesAreZeroed likewise.
- Projection.ProjectionLaw: the daily index and the extra rate are arbitrary reals; parsing them uses floating point.
- Prices.LaterPriceInvisible: for commodity names without the separator, as the journal's syntax gives; metadata and file of a point are not kept.
- Prices.RatesAreReciprocal: requires one direction per pair and nonzero rates; with both directions written the two series need not be inverse.
- BetweenSamples.UnsampledDrains: requires that every price key splits into two names.
- BetweenSamples.ExpandedPadsOnTime: about the stream that pad expansion leaves; when closing is enabled the program then expands interest once more, which can add pads that fire on a later day.
- NetWorthSeries.WalkBalanceSeries: models the net worth series; the month-end and index days of interest accounts enter as a set of extra days, and the current day as a parameter.
- The account series and the income bars: the same walk with another filter, and binning by period.
- AccountTree.PnlTreeSection: takes the accounts' converted sums as input.
- Loader.LoadFile: paths are canonical file identities and globs are resolved to their sorted matches; the file system, symbolic links and ignore rules are not modelled, and a file that cannot be parsed counts as unreadable.
- Rebuild.Session.FinishRebuild: publishing diagnostics, hover and completion are left out; a rebuild that is cancelled or fails is a step that drops it, allowed at any time.
- Rebuild.Session.ReadFile: a rebuild's reads are single overlay lookups; what it computes from them is not modelled.
- Splice.ReadEntries: decoding a line is an input; a line that cannot be decoded aborts the reading and is not part of this model.
- Splice.Apply: parsing and formatting are inputs: the spans the parser finds and the text of each incoming directive.
- Atomic file writes, the web server, pages, static build, spreadsheet and document dumps: interface and plumbing.
- Configuration, plugins and the dated-cost index: they choose inputs of the parts above.
