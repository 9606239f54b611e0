# Verified model of the replay and execution core

This project models, in Dafny, the chain that turns recorded market events into simulated fills and
accounts, and proves what each link promises.

- **Shared** (`MachineIntegers`, `Wrappers`, `MarketTypes`, `Trading`, `AccountingErrors`, `InstrumentOrder`, `Sorting`,
  `Comparing`). Integer ranges, results, and the values every component exchanges.
- **Accounting** (`ExactArithmetic`, `PositionAccounting`, `DayTradeTax`, `DayTradeQueues`, `DayTradeFifo`,
  `DayTradeSavings`, `DayTradeRates`, `LedgerModel`, `LedgerFills`, `LedgerProgress`, `BasisRange`, `Ledgers`,
  `MultiLedgerModel`, `MultiLedgers`, `MultiLedgerEffects`). Money is a whole number of 10^-18 atoms and every overflow
  is an error result. Conservation is exact although the basis of a partly closed position is rounded, and tax that is
  booked and later refunded telescopes to the tax of every sell at its final matched quantity.
- **Visible depth** (`Book`, `BookMeaning`, `Greedy`, `Depth`, `DepthMeaning`, `SideQueue`, `AtomicDepth`). A sweep is
  the greedy choice from what is left of each level; it adds up, it is the best price, and several legs execute together
  or not at all.
- **Scheduled orders** (`ScheduledModel`, `ScheduledInvariant`, `ScheduledSteps`, `ScheduledEarly`, `ScheduledRuns`,
  `ScheduledEffects`, `ScheduledFills`, `ScheduledSimulators`). A state machine with nine statuses and four policies;
  what holds of the initial state holds after every operation, but one that the runs then name exactly.
- **Event-driven orders** (`MatchingModel`, `MatchingProperties`, `MatchingEffects`, `Matching`). First come, first
  served, with latency.
- **Event frames** (`Events`, `EventMeaning`, `BigEndian`, `FieldCodec`, `EventCodec`, `FrameCodec`, `FrameLayout`,
  `CanonicalParsers`). Encoding and decoding are inverse in both directions, and the encoding is the layout, byte by
  byte.
- **Ordering and market state** (`EventOrdering`, `ReducerModel`, `ReducerProperties`, `ReducerFields`, `Reducer`). The
  order of events depends on nothing but the events, and the reducer's own comparison agrees with it.
- **Calendar and text** (`CivilDate`, `DigitText`, `CalendarText`, `InstantText`, `DecimalText`, `TextLayout`). Dates,
  instants and decimals survive printing and parsing. The timestamp grammar is the one of section 5.6 of RFC 3339
  without lower-case letters and leap seconds, and the leap-year rule is that of its Appendix C.

Each component that changes state is a class or a loop whose contract equates its new state with a function on values;
the theorems are about those functions. The modules `...Effects`, `...Fills`, `...Fields`, `...Queues`, `...Meaning` and
`...Layout` say in closed form, from the fields of the arguments, what those functions do, errors included. `Result`
stands for error returns, and where the source calls `expect` the model returns an error that is then proved never to
occur. Lemmas switch automatic induction off and recurse explicitly.

Where the code does something other than its names suggest, the model follows the code and a lemma gives the exact condition:
rounding of negative numerators (`ExactArithmetic.DivideRoundMeetsPolicy`), the two roundings of half-up charges
(`ExactArithmetic.TwoRoundings`), the average cost at negative prices (`BasisRange.BasisRangeExactly`), minimum charges and
finer quanta of day trades (`DayTradeSavings.OrdinaryMinimumInRuns`, `DayTradeRates.CutOffExactly`), evaluation before
activation (`ScheduledRuns.LegalExactly`, `ScheduledEarly.EvaluatesEarlyExactly`), evaluations that fail half way
(`MatchingProperties.EvaluateFailsExactly`), and merged auction observations (`ReducerProperties.MergeBreaksValidityExactly`).

`dafny verify dfyconfig.toml` checks the whole project.

## Model

| member | source | states |
|---|---|---|
| `ExactArithmetic.EuclideanGcd` | crates/execution-sim/src/accounting.rs:751-758 | the loop computes the recursive greatest common divisor |
| `ExactArithmetic.GcdIsGreatest` | crates/execution-sim/src/accounting.rs:751-758 | the result divides both numbers and no common divisor is greater |
| `ExactArithmetic.CancelKeepsFraction` | crates/execution-sim/src/accounting.rs:734-749 | cancelling both common divisors keeps the fraction, and the division is exact only when the cancelled denominator is 1 |
| `ExactArithmetic.MultiplyDecimalAtomsExact` | crates/execution-sim/src/accounting.rs:734-749 | the product succeeds exactly when 10^18 divides it and the quotient fits 128 bits, and is that quotient; otherwise the error says which |
| `ExactArithmetic.DivideRoundMeetsPolicy` | crates/execution-sim/src/accounting.rs:905-923 | truncating and adding one is the policy's floor, ceiling or nearest if and only if the division is exact, or the numerator is non-negative and a half-up remainder doubles within 128 bits, or a half-up remainder is below one half |
| `ExactArithmetic.NegativeNumeratorCounterexample` | crates/execution-sim/src/accounting.rs:905-923 | -7/4 rounds to 0 under `Up` and `HalfUp`, which is neither the ceiling nor the nearest |
| `ExactArithmetic.TwoRoundings` | crates/execution-sim/src/accounting.rs:760-801 | rounding to atoms and then to the quantum is one rounding for `Down` and `Up`, and for `HalfUp` exactly unless the first rounded up onto the second's tie |
| `ExactArithmetic.ChargeRefinesDirectForm` | crates/execution-sim/src/accounting.rs:760-801 | a charge is base times rate over 10^18 rounded to atoms, then to the quantum, then raised to the minimum; it fails only by overflow and never where the uncancelled product fits |
| `PositionAccounting.ScaleByQuantityExact` | crates/execution-sim/src/accounting.rs:719-732 | a notional or flow is exact: no fraction of an atom is dropped |
| `PositionAccounting.TransitionConserves` | crates/execution-sim/src/accounting.rs:819-888 | a position change conserves cash, basis and realized result exactly, in opening, reducing, closing and reversing; a flat position has no basis and no average cost |
| `PositionAccounting.TransitionKeepsBasisWithin` | crates/execution-sim/src/accounting.rs:819-888 | in a range of prices without negative ones, of a single price, or of a lowest price of which two units do not fit, the average cost stays although the allocated basis is rounded |
| `PositionAccounting.NegativePriceBasisEscapes` | crates/execution-sim/src/accounting.rs:845-888 | in every other range, half of a basis within the range rounds to a share that leaves the rest outside it |
| `BasisRange.EscapeRuns` | crates/execution-sim/src/accounting.rs:374-428 | three fills of one unit each, from an opened ledger, lead outside every other range |
| `BasisRange.BasisRangeExactly` | crates/execution-sim/src/accounting.rs:819-888 | every run of every ledger at prices of a range keeps the average cost in it if and only if the range is one of those kept |
| `DayTradeTax.RematchSellsInPlace` | crates/execution-sim/src/accounting.rs:563-590 | the loop over the sell queue is the recursive re-assessment, errors included |
| `DayTradeTax.ConsumeBuysInPlace` | crates/execution-sim/src/accounting.rs:592-603 | the loop over the buy queue is the recursive consumption, oldest first |
| `DayTradeTax.ConsumeBuysBalance` | crates/execution-sim/src/accounting.rs:592-603 | what a sell consumes leaves the open quantity of its date and nothing of another |
| `DayTradeQueues.BuyExactly` | crates/execution-sim/src/accounting.rs:563-590 | a buy matches as much as the queued sells of its date leave, a later one only when the earlier ones are full, taxes again exactly those it matched, books the change, and waits with the rest |
| `DayTradeQueues.SellExactly` | crates/execution-sim/src/accounting.rs:592-625 | a sell uses the queued buys of its date, a later one only when the earlier ones are used up, is taxed on what they cover, and waits while it is not covered |
| `DayTradeFifo.MatchedIsTheSmallerSide` | crates/execution-sim/src/accounting.rs:543-625 | after any interleaving, on every covered date the matched quantity is the smaller of bought and sold, and the two queues are never both open for one date |
| `DayTradeFifo.BookedTaxIsFifoTax` | crates/execution-sim/src/accounting.rs:562-673 | the total booked over all fills, refunds included, is the split tax of every sell at its final matched quantity |
| `DayTradeFifo.TaxIgnoresInterleaving` | crates/execution-sim/src/accounting.rs:543-625 | two runs with the same sells in order and the same quantity bought per date book the same total |
| `DayTradeFifo.BookedTaxNonNegative` | crates/execution-sim/src/accounting.rs:562-673 | the running total is never negative although single fills book negative tax |
| `DayTradeSavings.DayTradeTaxAtMostOrdinary` | crates/execution-sim/src/accounting.rs:646-674 | with no day-trade minimum, and either a zero day-trade rate or a part cut off to no finer a quantum than an ordinary tax without minimum, the total is at most the all-ordinary tax, however the ordinary tax rounds |
| `DayTradeSavings.RunsReduceToSales` | crates/execution-sim/src/accounting.rs:543-674 | a model that applies on some day never costs more in any run if and only if it never does in a single sell |
| `DayTradeSavings.OrdinaryMinimumExactly` | crates/execution-sim/src/accounting.rs:646-674 | with an ordinary minimum, a sell costs more split than whole if and only if its matched part owes something, its rest less than the minimum, and the whole less than that part and the minimum |
| `DayTradeSavings.OrdinaryMinimumInRuns` | crates/execution-sim/src/accounting.rs:543-674 | the same over runs: none costs more if and only if no sell has its rest raised so |
| `DayTradeSavings.MinimumIsPaidTwice` | crates/execution-sim/src/accounting.rs:646-674 | a sell for nothing that is partly matched owes both minimums, whatever the rates |
| `DayTradeSavings.DayTradeMinimumIsZero` | crates/execution-sim/src/accounting.rs:543-674 | if no run of a model that applies costs more, its day-trade minimum is zero, or no larger than an ordinary one with which it overflows |
| `DayTradeRates.CutOffExactly` | crates/execution-sim/src/accounting.rs:646-801 | both parts cut off without minimums, at a day-trade rate above 0 and up to 1: no run at unit economics costs more if and only if the day-trade quantum is no finer, or the least base that owes one owes an ordinary quantum too |
| `DayTradeRates.RoundedUpExactly` | crates/execution-sim/src/accounting.rs:646-801 | a day-trade part rounded up, against a tax cut off that one atom of base does not owe: no run at unit economics costs more if and only if the day-trade rate is zero |
| `DayTradeSavings.RoundingUpCostsMore` | crates/execution-sim/src/accounting.rs:760-801 | with a day-trade part not rounded down some run costs more, however the ordinary tax rounds |
| `DayTradeSavings.FinerQuantumCostsMore` | crates/execution-sim/src/accounting.rs:760-801 | with a finer day-trade quantum, at any two precisions, some run costs more |
| `DayTradeSavings.OrdinaryMinimumCostsMore` | crates/execution-sim/src/accounting.rs:760-801 | with an ordinary minimum alone some run costs more |
| `LedgerModel.FillConserves` | crates/execution-sim/src/accounting.rs:374-428 | one fill keeps cash, realized result, costs and the multiplier-weighted signed basis in exact balance with the price flow |
| `LedgerModel.ReplayConserves` | crates/execution-sim/src/accounting.rs:374-428 | the same after any fills from an empty ledger |
| `LedgerModel.CashIdentity` | crates/execution-sim/src/accounting.rs:374-428 | cash is initial plus realized less costs, less the multiplier-weighted signed basis for equity and options and without it for futures |
| `LedgerModel.FlatRealizedIsNetFlow` | crates/execution-sim/src/accounting.rs:374-428 | back at a flat position the realized result is the signed price flow, whatever the path and the roundings |
| `LedgerModel.BasisStaysWithinTradedPrices` | crates/execution-sim/src/accounting.rs:819-888 | over any run at prices of a range that is kept the average cost lies in that range |
| `LedgerModel.LedgerTaxIsFifoTax` | crates/execution-sim/src/accounting.rs:543-625 | the ledger's total tax is the tax of its sells at their final matched quantities, and is not negative |
| `LedgerFills.ReplayCosts` | crates/execution-sim/src/accounting.rs:374-428 | every fill of a run has its costs recorded in order: the fee model's charge, and, without day trading or on a day it does not match on, the charge of the tax model or of the ordinary tax: nothing of a side left out, else base times rate rounded twice and raised to the minimum |
| `LedgerFills.SplitOwes` | crates/execution-sim/src/accounting.rs:646-674 | the matched part of a sell owes the day-trade tax and the rest the ordinary one, each on its own notional with its own minimum, and no part owes nothing |
| `LedgerFills.TradingDateExactly` | crates/execution-sim/src/accounting.rs:628-644 | a fill's date is found exactly when its local instant fits, and is the day that holds that instant |
| `LedgerFills.InvalidModelExactly` | crates/execution-sim/src/accounting.rs:688-706 | a fill is refused for its configuration exactly when a part of it is one that its constructor refuses |
| `LedgerFills.ReplayAverages` | crates/execution-sim/src/accounting.rs:890-903 | after any run only a flat position has no average cost, and any other has its basis over its size, rounded half up |
| `LedgerProgress.ClosingFits` | crates/execution-sim/src/accounting.rs:819-888 | a fill against the position, reversals included, succeeds whenever its amounts leave room |
| `LedgerProgress.RematchFits` | crates/execution-sim/src/accounting.rs:563-590 | a buy is matched whenever the queued sells can be taxed again |
| `LedgerProgress.FillSucceeds` | crates/execution-sim/src/accounting.rs:374-428 | no fill is refused for nothing: at a whole multiplier one whose charges are known and whose amounts stay below 10^37 atoms is booked, in every accounting model, day trades included |
| `LedgerModel.UnrealizedExactly` | crates/execution-sim/src/accounting.rs:462-486 | an open position has an unrealized result if and only if the marked value, its difference to the basis and the cash it comes to fit and no fraction of an atom is lost; it is then exact, and the error says which failed |
| `LedgerModel.MarkAdjustmentExactly` | crates/execution-sim/src/accounting.rs:1346-1383 | marking an open position succeeds under the corresponding condition for its cash model, and is exact |
| `LedgerModel.MarkedEquity` | crates/execution-sim/src/accounting.rs:458-496 | cash plus the mark-to-market adjustment is initial cash plus realized and unrealized results less costs, in every cash model |
| `Ledgers.Ledger.constructor` | crates/execution-sim/src/accounting.rs:329-365 | a new ledger is the empty run |
| `Ledgers.Ledger.Apply` | crates/execution-sim/src/accounting.rs:374-428 | the new state is the fill's effect committed, and an error leaves every field as it was; the ledger stays a replay of its recorded fills, whose costs `LedgerFills.ReplayCosts` spells out |
| `Ledgers.Ledger.Assess` | crates/execution-sim/src/accounting.rs:374-402 | fee, tax, transition and cash of a fill are those of the model, with its errors, and nothing changes |
| `Ledgers.Ledger.TaxOf` | crates/execution-sim/src/accounting.rs:543-561 | without day trading the tax model's charge, on an uncovered date the ordinary tax, on a covered one the matched tax; which model pays is stated by `LedgerFills.ReplayCosts` |
| `Ledgers.Ledger.MatchedTax` | crates/execution-sim/src/accounting.rs:562-625 | a buy re-assesses the sells of its date, a sell consumes the buys of its date |
| `Ledgers.Ledger.Reconcile` | crates/execution-sim/src/accounting.rs:430-456 | in every reachable state rebuilding the ledger from its fills agrees |
| `MultiLedgerModel.FillKeepsValid` | crates/execution-sim/src/accounting.rs:1206-1231 | a fill keeps the shared cash the initial cash plus the sum of the instruments' cash less charges |
| `MultiLedgerModel.ChargeAllMeaning` | crates/execution-sim/src/accounting.rs:1181-1204 | a batch of charges is taken if and only if every charge is valid, every identity is new and every balance on the way fits; cash then falls by their sum |
| `MultiLedgerModel.ChargesKeepValid` | crates/execution-sim/src/accounting.rs:1181-1204 | a batch of charges keeps the shared cash accounted for |
| `MultiLedgerModel.OpenEntryExactly` | crates/execution-sim/src/accounting.rs:1129-1164 | a ledger is opened exactly for a configuration whose market, unit and model go together and whose parts are proper; it is empty, and each part of its configuration is in its own place |
| `MultiLedgerEffects.FillInstrumentExactly` | crates/execution-sim/src/accounting.rs:1206-1231 | a fill goes to the ledger of its instrument and no other, shared cash moves as that ledger's does, and each refusal has its reason |
| `MultiLedgerEffects.ChargesFailFirst` | crates/execution-sim/src/accounting.rs:1181-1204 | a batch of charges is refused for its first charge that cannot be taken: a negative amount or a blank text, an identity used before, or a balance that does not fit |
| `MultiLedgerEffects.ColumnsExactly` | crates/execution-sim/src/accounting.rs:1258-1310 | each column of a summary adds up its own amounts over the instruments |
| `MultiLedgerModel.SharedCashEquity` | crates/execution-sim/src/accounting.rs:1258-1383 | shared cash plus all mark-to-market adjustments is initial cash plus realized and unrealized results less fees, taxes and charges, across equity, options and futures |
| `InstrumentOrder.InstrumentsFlip` | crates/market-types/src/instrument.rs:35-41 | the order of map keys is antisymmetric, and equal only for equal instruments |
| `InstrumentOrder.AtOrBeforeExactly` | crates/market-types/src/instrument.rs:35-41 | instruments are ordered by market, and in one market by the bytes of their symbols |
| `MultiLedgers.MultiLedger.Open` | crates/execution-sim/src/accounting.rs:1129-1178 | opening succeeds exactly for a non-empty list of distinct, well-formed configurations, with one ledger each in key order; otherwise the error is that of the first configuration refused |
| `MultiLedgers.MultiLedger.ApplyCashCharges` | crates/execution-sim/src/accounting.rs:1181-1204 | the batch is applied whole or not at all |
| `MultiLedgers.MultiLedger.Fill` | crates/execution-sim/src/accounting.rs:1206-1231 | the fill of one instrument is applied whole or not at all, and keeps the invariant |
| `MultiLedgers.MultiLedger.Reconcile` | crates/execution-sim/src/accounting.rs:1233-1256 | reconciliation never disagrees; it reports overflow exactly when a partial sum in key order, or of the charges after it, does not fit |
| `MultiLedgers.MultiLedger.Summarize` | crates/execution-sim/src/accounting.rs:1258-1310 | it succeeds exactly when the charges add up and, in key order, every instrument has an unrealized result and every column fits; the error is that of the first that fails; the columns satisfy the equity identity with accepted marks |
| `MultiLedgers.MultiLedger.MarkToMarketAdjustment` | crates/execution-sim/src/accounting.rs:1346-1383 | unknown instruments and refused marks are errors, a flat position adjusts nothing, and an open one is adjusted as `LedgerModel.MarkAdjustmentExactly` describes, errors included |
| `Book.Validate` | crates/market-types/src/book.rs:126-182 | the loop, which compares neighbours only, accepts exactly the sides that are contiguous, strictly ordered, of one unit and not too deep; otherwise the error is too many levels, or that of the first bad slot |
| `Book.BookUnitIsEveryLevels` | crates/market-types/src/book.rs:184-231 | the snapshot's unit is the unit of every displayed level of either side |
| `BookMeaning.ProperExactly` | crates/market-types/src/book.rs:126-182 | a side is valid exactly when its levels come first, fall or rise strictly in price and are of one unit, and market orders count as a level of that unit |
| `BookMeaning.SlotExactly` | crates/market-types/src/book.rs:126-182 | what is wrong with a slot, from the slots alone: a gap before it, then a unit, then a price |
| `BookMeaning.BookExactly` | crates/market-types/src/book.rs:184-231 | a book is valid exactly when its sides are proper, in their own places and of one unit together |
| `BookMeaning.UnitExactly` | crates/market-types/src/book.rs:184-231 | the unit of a valid book is that of everything it displays |
| `Greedy.TakeAdds` | crates/execution-sim/src/depth.rs:283-317 | taking a quantity and then another from what is left takes per level what taking their sum does |
| `Greedy.GreedyIsCheapest` | crates/execution-sim/src/depth.rs:283-317 | no other choice of the same quantity from levels in price order costs less |
| `Depth.SweepMarketableDepth` | crates/execution-sim/src/depth.rs:255-318 | the loop is the specified sweep, in the same order of checks |
| `Depth.SweepIsGreedy` | crates/execution-sim/src/depth.rs:283-317 | a sweep takes greedily from what each marketable level has left |
| `Depth.SweepConsumes` | crates/execution-sim/src/depth.rs:283-317 | applying a sweep raises the consumption of each level by exactly what it took, and it fills the smaller of what is asked and what is marketable |
| `Depth.SucceedsExactly` | crates/execution-sim/src/depth.rs:283-317 | a sweep succeeds if and only if it is complete before a level whose price is out of range or that is consumed beyond what it displays |
| `Depth.SweepsAdd` | crates/execution-sim/src/depth.rs:255-318 | sweeping and applying one quantity and then another succeeds if and only if one sweep of their sum does, and then every level is consumed alike, for market and limit orders |
| `Depth.StaysWithin` | crates/execution-sim/src/depth.rs:283-317 | consumption never exceeds what is displayed |
| `Depth.SweepIsBest` | crates/execution-sim/src/depth.rs:283-317 | a sweep fills the smaller of request and marketable quantity, and costs a buyer least (brings a seller most) among all allocations of it to the visible levels |
| `DepthMeaning.SweepTakes` | crates/execution-sim/src/depth.rs:255-318 | from the slots of a book: a buy takes of the asks and a sell of the bids, level by level, each at its price plus or minus the adverse delta, until the quantity is complete or the slots, the depth or the limit end |
| `DepthMeaning.SweepFailsAt` | crates/execution-sim/src/depth.rs:283-318 | a sweep fails only for the first slot it comes to that has a price out of range or more gone than it displays |
| `DepthMeaning.SidesAreOrdered` | crates/market-types/src/book.rs:126-182 | a valid side has its levels first, bids falling and asks rising, of one unit, and counts the market orders as a level |
| `AtomicDepth.LegsMeaning` | crates/execution-sim/src/depth.rs:166-181 | over staged books the legs fill exactly when every side shows enough for all its legs together, and each side then loses exactly that |
| `AtomicDepth.ExecuteMeaning` | crates/execution-sim/src/depth.rs:153-187 | execution never fails for a legal depth, matching units and consistent consumption; it fills if and only if every leg has a book and every side shows enough for all its legs |
| `AtomicDepth.LegTurns` | crates/execution-sim/src/depth.rs:166-181 | legs that fill do so one after the other on what the legs before them left, each whole and with its own fills, level by level |
| `AtomicDepth.OrderDoesNotMatter` | crates/execution-sim/src/depth.rs:153-187 | any order of the same legs fills or not alike, and leaves the same books |
| `AtomicDepth.SideOffersAre` | crates/execution-sim/src/depth.rs:153-187 | what a side of a book has for its legs is, slot by slot, what is left of the asks for buys and of the bids for sells |
| `AtomicDepth.DepthBooks.Replace` | crates/execution-sim/src/depth.rs:68-72 | the new depth is valid, nothing of it is consumed and every visible level is on offer in full; no other book changes |
| `AtomicDepth.DepthBooks.ExecuteAtomic` | crates/execution-sim/src/depth.rs:153-187 | books change only when every leg filled; on an incomplete leg or an error all are as before |
| `ScheduledInvariant.StatusChangeKeepsInv` | crates/execution-sim/src/scheduled.rs:518-561 | changing statuses along the graph keeps every invariant |
| `ScheduledInvariant.SweepKeepsInv` | crates/execution-sim/src/scheduled.rs:646-769 | booking a sweep with its final status keeps sums, per-level consumption, limits, policy and staleness of all fills: visible depth is only for the two depth policies, a settlement price only for settlements at their time, a clearing price only for auction orders strictly better |
| `ScheduledInvariant.FillWholeKeepsInv` | crates/execution-sim/src/scheduled.rs:1078-1130 | a settlement or auction fill of a whole order keeps them |
| `ScheduledInvariant.BookFillsMeaning` | crates/execution-sim/src/scheduled.rs:698-741 | recording fills one by one is recording them together |
| `ScheduledSteps.PublishBookSound` | crates/execution-sim/src/scheduled.rs:366-418 | publishing a book keeps the invariant and starts its consumption at zero |
| `ScheduledSteps.PublishTradingSound` | crates/execution-sim/src/scheduled.rs:420-442 | publishing a trading state keeps the invariant |
| `ScheduledSteps.SubmitSound` | crates/execution-sim/src/scheduled.rs:444-516 | submitting with a new order id keeps the invariant, also when it fails after replacing |
| `ScheduledSteps.ReplaceSound` | crates/execution-sim/src/scheduled.rs:472-490 | the client index always leads to an order, and replacing leaves no other live order of the client |
| `ScheduledSteps.CancelSound` | crates/execution-sim/src/scheduled.rs:518-536 | cancelling keeps the invariant |
| `ScheduledSteps.ExpireSound` | crates/execution-sim/src/scheduled.rs:538-561 | expiring keeps the invariant |
| `ScheduledSteps.ActivateSound` | crates/execution-sim/src/scheduled.rs:563-769 | activation under any policy keeps the invariant, and no `expect` fails |
| `ScheduledSteps.ExecutePassiveSound` | crates/execution-sim/src/scheduled.rs:926-1076 | a passive execution keeps the invariant, unless something fills before the order's activation time; then the recorded fill is refused and the invariant broken |
| `ScheduledSteps.EvaluateFromSound` | crates/execution-sim/src/scheduled.rs:771-797 | evaluating the active orders keeps the invariant, also when it stops at an error half way, if and only if it comes to no order that fills early; otherwise it fails over the refused fill |
| `ScheduledSteps.AuctionFromSound` | crates/execution-sim/src/scheduled.rs:831-924 | an auction match keeps the invariant |
| `ScheduledSteps.CancelInterruptedSound` | crates/execution-sim/src/scheduled.rs:799-829 | cancelling interrupted market orders keeps the invariant |
| `ScheduledRuns.StepSound` | crates/execution-sim/src/scheduled.rs:366-1130 | every operation, but an evaluation that fills early, keeps the invariant, moves statuses only along the graph, and neither panics nor refuses a recorded fill |
| `ScheduledRuns.RunKeepsInv` | crates/execution-sim/src/scheduled.rs:366-1130 | over any run with new ids and no evaluation that fills early the invariant holds and every status only climbs, whatever the order of the control times |
| `ScheduledRuns.LegalExactly` | crates/execution-sim/src/scheduled.rs:366-1130 | with new ids the invariant holds throughout a run if and only if no evaluation of it fills early |
| `ScheduledRuns.DueIsAdmissible` | crates/execution-sim/src/scheduled.rs:771-797 | an evaluation at a time when every waiting order of its instrument is due fills nothing early |
| `SideQueue.SweepInTurn` | crates/execution-sim/src/depth.rs:255-318 | after other sweeps of a side, of whatever limits, one number says when the next sweep succeeds, whether it fills anything, and what is gone after it |
| `ScheduledEarly.EvaluatesEarlyExactly` | crates/execution-sim/src/scheduled.rs:771-797 | of the state before the call: an evaluation fills early if and only if the book is fresh, some waiting order is not due, the waiting orders before it leave something within its limit, and no sweep up to its own fails |
| `ScheduledRuns.EveryRunAccounts` | crates/execution-sim/src/scheduled.rs:366-1130 | after any such run each order's filled quantity is the sum of its fills and within its request, and each level's consumption is the depth fills since publication and within what it displays |
| `ScheduledRuns.NothingPanics` | crates/execution-sim/src/scheduled.rs:1147-1173 | no operation of such a run hits a failing `expect` or a fill reported too early |
| `ScheduledRuns.FilledInOneCall` | crates/execution-sim/src/scheduled.rs:926-1076 | an order filled by one operation is filled by no other |
| `ScheduledRuns.ActivationsFollowAcceptance` | crates/execution-sim/src/scheduled.rs:576-583 | after an activation succeeds no order accepted earlier for the same time is ever waiting |
| `ScheduledRuns.OneOrderPerClient` | crates/execution-sim/src/scheduled.rs:472-515 | a client id has at most one order that is not replaced |
| `ScheduledRuns.EarlyRunFails` | crates/execution-sim/src/scheduled.rs:990-1036 | publishing one offer, submitting an order for it, activating it at 10 and evaluating at 5 records the fill, refuses it and breaks the sums |
| `ScheduledEffects.PublishBookExactly` | crates/execution-sim/src/scheduled.rs:366-418 | a book replaces that of its instrument, with the trading state, and nothing of it is consumed; unless its unit or a displayed price is not the instrument's or a time goes back |
| `ScheduledEffects.SubmitExactly` | crates/execution-sim/src/scheduled.rs:444-516 | a submission replaces its client's scheduled order and becomes the last order; otherwise its first problem is reported, in the source's order |
| `ScheduledEffects.CancelExactly` | crates/execution-sim/src/scheduled.rs:518-536 | a client's order is cancelled exactly while it is scheduled |
| `ScheduledEffects.ExpireExactly` | crates/execution-sim/src/scheduled.rs:538-561 | an order that is not over expires exactly at its expiry time |
| `ScheduledEffects.InterruptExactly` | crates/execution-sim/src/scheduled.rs:799-829 | an interruption cancels exactly the instrument's active market orders, partly filled or attempted ones included |
| `ScheduledFills.ActivateExactly` | crates/execution-sim/src/scheduled.rs:563-590 | only a scheduled order, at its own time and when no older one has that time, is activated; otherwise the reason is given |
| `ScheduledFills.PolicyExactly` | crates/execution-sim/src/scheduled.rs:590-620 | an order that may not enter fails; one for later depth or for an auction becomes active and nothing is filled; a settlement is one fill of the whole limit order at its limit |
| `ScheduledFills.DepthExactly` | crates/execution-sim/src/scheduled.rs:621-769 | an order for depth at activation: without a visible, fresh book and matching it fails with that reason; else the sweep is booked, level by level of the right side, and it is filled, or failed with what it got |
| `ScheduledFills.PassiveExactly` | crates/execution-sim/src/scheduled.rs:926-1076 | the same of an order that waits: without a usable book nothing happens; a sweep before its time records only the first level, and refuses it |
| `ScheduledFills.EvaluateTurns` | crates/execution-sim/src/scheduled.rs:771-797 | the waiting orders have their turns oldest first, each on the books the ones before it left, up to the first that fails |
| `ScheduledFills.AuctionExactly` | crates/execution-sim/src/scheduled.rs:831-924 | each due auction order strictly better than the clearing price is filled whole at it, in order; any other due one is attempted; nothing else changes |
| `ScheduledSimulators.ScheduledDepthSimulator.constructor` | crates/execution-sim/src/scheduled.rs:335-364 | starts with no books, orders or fills and sequence 1 |
| `ScheduledSimulators.ScheduledDepthSimulator.PublishVisibleBook` | crates/execution-sim/src/scheduled.rs:366-418 | the object changes as the specified step, with the same order of checks, and keeps the invariant |
| `ScheduledSimulators.ScheduledDepthSimulator.PublishVisibleTradingState` | crates/execution-sim/src/scheduled.rs:420-442 | the object changes as the specified step and keeps the invariant |
| `ScheduledSimulators.ScheduledDepthSimulator.SubmitOrder` | crates/execution-sim/src/scheduled.rs:444-516 | the object changes as the specified step and, for a new order id, keeps the invariant |
| `ScheduledSimulators.ScheduledDepthSimulator.CancelScheduled` | crates/execution-sim/src/scheduled.rs:518-536 | the object changes as the specified step and keeps the invariant |
| `ScheduledSimulators.ScheduledDepthSimulator.ExpireOrder` | crates/execution-sim/src/scheduled.rs:538-561 | the object changes as the specified step and keeps the invariant |
| `ScheduledSimulators.ScheduledDepthSimulator.ActivateOrder` | crates/execution-sim/src/scheduled.rs:563-769 | the object changes as the specified step, which `ScheduledFills` gives per policy, and keeps the invariant |
| `ScheduledSimulators.ScheduledDepthSimulator.RecordFills` | crates/execution-sim/src/scheduled.rs:698-741 | the loop over level fills is the specified booking of fills and feedback, and stops where it stops: a refused fill is recorded and not reported |
| `ScheduledSimulators.ScheduledDepthSimulator.EvaluateActiveOrders` | crates/execution-sim/src/scheduled.rs:771-797 | collecting the waiting orders first and executing them in turn is the specified fold, and keeps the invariant when nothing fills early |
| `ScheduledSimulators.ScheduledDepthSimulator.ExecutePassiveOrder` | crates/execution-sim/src/scheduled.rs:926-1076 | the object changes as the specified step |
| `ScheduledSimulators.ScheduledDepthSimulator.CancelInterruptedMarketOrders` | crates/execution-sim/src/scheduled.rs:799-829 | the loop cancels exactly the interrupted market orders, and keeps the invariant |
| `ScheduledSimulators.ScheduledDepthSimulator.EvaluateAuctionMatch` | crates/execution-sim/src/scheduled.rs:831-924 | collecting the waiting orders first and settling them in turn is the specified fold, and keeps the invariant |
| `MatchingProperties.RunKeepsInv` | crates/execution-sim/src/lib.rs:246-481 | over any run with new ids each order's filled quantity is the sum of its fills and at most its request, a filled or cancelled order stays as it is, and every fill obeys limit, policy and latency |
| `MatchingProperties.TimePriority` | crates/execution-sim/src/lib.rs:329-421 | when an order is filled, every order accepted before it on its side that admits the slipped price is filled completely |
| `MatchingProperties.FillsWithinEvidence` | crates/execution-sim/src/lib.rs:335-421 | with the displayed policy one event fills of each side at most what it shows to that side; `MatchingEffects.FilledWithinDisplayed` says what that is |
| `MatchingProperties.NoLookAhead` | crates/execution-sim/src/lib.rs:563-589 | every fill has a later ordinal than its order and a match time at least the order's origin plus both latencies |
| `MatchingProperties.EvaluateFailsExactly` | crates/execution-sim/src/lib.rs:308-421 | evaluation fails if and only if matching runs and some order that may be matched is shown a price of its unit that touches its limit and that slippage takes out of range or policy |
| `MatchingProperties.FailureKeepsEarlierFills` | crates/execution-sim/src/lib.rs:308-421 | a failing evaluation may have filled an earlier order |
| `MatchingEffects.OfferedExactly` | crates/execution-sim/src/lib.rs:493-519 | what a payload shows a side: the best level of the other side of the book, or the first trade, in the mode's evidence only |
| `MatchingEffects.EvaluateExactly` | crates/execution-sim/src/lib.rs:308-421 | an evaluation in closed form: each order's share of what is left of the level shown to its side, its fill and its status, up to the first order whose slipped price fails |
| `MatchingEffects.AddedFills` | crates/execution-sim/src/lib.rs:329-421 | every fill an evaluation adds is of one of its orders, at its match time, at the displayed price plus the adverse delta for a buy and minus it for a sell |
| `MatchingEffects.FilledWithinDisplayed` | crates/execution-sim/src/lib.rs:335-421 | with the displayed policy a side is filled at most the quantity of that level or trade |
| `MatchingEffects.SubmitExactly` | crates/execution-sim/src/lib.rs:246-306 | a submission is refused for its first problem, or becomes the last order, eligible after both latencies |
| `MatchingEffects.CancellingExactly` | crates/execution-sim/src/lib.rs:444-481 | the end of a segment or of the run cancels exactly the working orders it is for |
| `MatchingEffects.InterruptsExactly` | crates/execution-sim/src/lib.rs:423-442 | an interruption cancels exactly the instrument's pending market orders |
| `Matching.Simulator.SubmitIntent` | crates/execution-sim/src/lib.rs:246-306 | the object changes as the specified step, rejections and errors included, and for a new order id keeps the invariant |
| `Matching.Simulator.EvaluateEvent` | crates/execution-sim/src/lib.rs:308-421 | the object changes as the specified step, which `MatchingEffects.EvaluateExactly` gives in full, and keeps the invariant |
| `Matching.Simulator.MatchOrders` | crates/execution-sim/src/lib.rs:329-421 | the loop over the orders is the specified fold, and stops where it stops |
| `Matching.Simulator.CancelOrders` | crates/execution-sim/src/lib.rs:423-481 | the loop cancels exactly the working orders that are chosen |
| `Matching.Simulator.CancelSegmentEnd` | crates/execution-sim/src/lib.rs:463-481 | exactly the working orders of the segment are cancelled, and the invariant kept |
| `Matching.Simulator.CancelAtEndOfRun` | crates/execution-sim/src/lib.rs:444-461 | exactly the working orders are cancelled, and the invariant kept |
| `FieldCodec.IntegersRoundTrip` | crates/market-types/src/event.rs:598-624 | every fixed-width integer is read back from its big-endian bytes, whatever follows |
| `FieldCodec.BytesRoundTrip` | crates/market-types/src/canonical.rs:144-154 | a length-framed byte string is read back, whatever follows |
| `FieldCodec.BytesCanonical` | crates/market-types/src/event.rs:626-629 | a byte string that is read is the framing of its value |
| `FieldCodec.TradeCanonical` | crates/market-types/src/event.rs:651-660 | a trade that is read is the encoding of its value |
| `EventCodec.BookRoundTrip` | crates/market-types/src/canonical.rs:34-56 | a valid book is read back, whatever follows |
| `EventCodec.BookCanonical` | crates/market-types/src/event.rs:662-684 | a book that is read is valid and its bytes are its encoding |
| `EventCodec.ObservationRoundTrip` | crates/market-types/src/canonical.rs:132-141 | an observation is read back whenever its value is |
| `EventCodec.ObservationCanonical` | crates/market-types/src/event.rs:686-708 | an observation that is read is the encoding of its value whenever the value is |
| `EventCodec.RoundRoundTrip` | crates/market-types/src/signal.rs:337-386 | a valid auction observation is read back |
| `EventCodec.RoundCanonical` | crates/market-types/src/event.rs:710-758 | an auction observation that is read is valid and its bytes are its encoding |
| `EventCodec.SignalCanonical` | crates/market-types/src/event.rs:760-769 | a market signal that is read is valid and its bytes are its encoding |
| `FrameCodec.BatchRoundTrip` | crates/market-types/src/event.rs:483-510 | a trade batch is read back: the bound on the trade count never refuses an encoded batch |
| `FrameCodec.BatchCanonical` | crates/market-types/src/event.rs:483-510 | a trade batch that is read is valid and its bytes are its encoding |
| `FrameCodec.AuctionCanonical` | crates/market-types/src/event.rs:511-521 | an indicative auction that is read is valid and its bytes are its encoding |
| `FrameCodec.PayloadRoundTrip` | crates/market-types/src/event.rs:893-928 | every valid payload is read back, whatever follows |
| `FrameCodec.DecodeInvertsEncode` | crates/market-types/src/event.rs:421-542 | every valid event that has an encoding is what its encoding decodes to |
| `FrameCodec.EncodeInvertsDecode` | crates/market-types/src/event.rs:421-542 | accepted bytes are the encoding of the event they decode to, and that event is valid |
| `FrameCodec.EncodeInjective` | crates/market-types/src/event.rs:421-438 | different valid events have different encodings |
| `FrameLayout.EncodesExactly` | crates/market-types/src/event.rs:421-438 | an event is written as magic, versions, market, symbol, date, source format, match time, sequence, payload tag and payload, each in its bytes, most significant first; or its time or a length does not fit |
| `FrameLayout.DecodesExactly` | crates/market-types/src/event.rs:441-542 | bytes are read as an event if and only if it is valid and they are its layout, byte by byte |
| `EventMeaning.EventExactly` | crates/market-types/src/event.rs:441-542 | an event is valid exactly when its names are readable and not empty, its date has four digits, and its payload's books, rounds and units are proper: one unit for a quote, a batch or an auction |
| `CanonicalParsers.CanonicalParser.TakeBytes` | crates/market-types/src/event.rs:579-590 | the offset moves over exactly the bytes returned, or the input is truncated |
| `CanonicalParsers.CanonicalParser.Slots` | crates/market-types/src/event.rs:672-681 | the loop reads the five slots of a side |
| `CanonicalParsers.CanonicalParser.Trades` | crates/market-types/src/event.rs:493-495 | the loop reads as many trades as were counted |
| `CanonicalParsers.CanonicalParser.PayloadValue` | crates/market-types/src/event.rs:466-530 | the moving offset reads what the specification of every payload takes, with its errors |
| `CanonicalParsers.FromCanonicalBytes` | crates/market-types/src/event.rs:441-542 | parsing with the moving offset is the specified decoding, with its errors |
| `EventOrdering.KeysFlip` | crates/replay-engine/src/ordering.rs:11-22 | the key comparison is antisymmetric, and equal only for equal keys |
| `EventOrdering.KeysCompose` | crates/replay-engine/src/ordering.rs:11-22 | the key comparison is transitive |
| `EventOrdering.KeyOfEvent` | crates/replay-engine/src/ordering.rs:24-54 | an event has a key exactly when it has a phase and an encoding, and the key is its own fields |
| `EventOrdering.PhaseExactly` | crates/replay-engine/src/ordering.rs:128-155 | the phase of an event from its payload, signal and source format |
| `EventOrdering.AtMostExactly` | crates/replay-engine/src/ordering.rs:11-22 | one event comes no later than another by match time, market, symbol in byte order, source format, phase, payload kind, sequence with none first, and fingerprint |
| `EventOrdering.CollideExactly` | crates/replay-engine/src/ordering.rs:97-109 | two events collide exactly when each may come before the other and their bytes differ |
| `Comparing.LessIsByteOrder` | crates/replay-engine/src/ordering.rs:11-22 | bytes are compared at their first difference, and a prefix comes first |
| `EventOrdering.OrderEvents` | crates/replay-engine/src/ordering.rs:97-109 | ordering succeeds exactly for events that have keys and do not collide, a property of their multiset, and returns them with none lost, rising in match time, then market, symbol, source format, phase, payload kind, source sequence and fingerprint; otherwise the error is that of the first event without a key, or a collision |
| `EventOrdering.OrderingIsUnique` | crates/replay-engine/src/ordering.rs:97-109 | two sorted lists of the same valid events are the same list, whatever the input order and however the sort treats equal keys |
| `Sorting.SortUnstable` | crates/replay-engine/src/ordering.rs:97-103 | a sort that says nothing of equal keys |
| `ReducerProperties.ProposeKeeps` | crates/market-state/src/reducer.rs:105-247 | a proposal keeps the invariant, its version is the next one, and every field absent from its receipt is unchanged |
| `ReducerProperties.ReachableStates` | crates/market-state/src/reducer.rs:300-496 | in every reachable state the phase is the one of the signal, which `ReducerFields.ReachableRows` tabulates, and a known indicative auction never stands beside a continuous, uncross or closed signal |
| `ReducerFields.ReachableRows` | crates/market-state/src/reducer.rs:300-496 | in every reachable state the phase stands beside the signal as a table says: collecting with its own observation, uncross by its purpose, continuous and closed for themselves, unknown with its reason |
| `ReducerFields.AcceptedFields` | crates/market-state/src/reducer.rs:105-247 | every field after an accepted event: what a new segment resets or ends, then what the payload sets, clears or leaves |
| `ReducerFields.ReceiptExactly` | crates/market-state/src/reducer.rs:232-247 | a field is in the receipt exactly when the event touched it |
| `ReducerFields.RefusedExactly` | crates/market-state/src/reducer.rs:105-247 | an event is refused exactly for the first thing wrong with it, in the source's order |
| `ReducerProperties.VolumeDoesNotFall` | crates/market-state/src/reducer.rs:369-436 | within a segment under the non-decreasing policy a known volume follows a known one only when it is not less, both in the profile's unit |
| `ReducerProperties.MergeIsIdempotent` | crates/market-state/src/reducer.rs:439-471 | merging the same observation again changes nothing |
| `ReducerProperties.IndicativeAgreesWithPhase` | crates/market-state/src/reducer.rs:203-230 | after an indicative event the stored auction, the signal and the phase hold the same merged observation |
| `ReducerProperties.MergeBreaksValidityExactly` | crates/market-types/src/signal.rs:107-196 | merging valid observations breaks the constructor's rule if and only if one names a purpose other than a volatility interruption and the other, which names none, a direction |
| `ReducerProperties.CommitsOnce` | crates/market-state/src/reducer.rs:249-262 | of two proposals from one state only the first can be committed |
| `ReducerProperties.PhasesAgree` | crates/market-state/src/model.rs:130-151 | the two phase rankings agree wherever the ordering key exists |
| `ReducerProperties.ComparisonsAgree` | crates/market-state/src/reducer.rs:568-580 | for events of one instrument the reducer's comparison is the comparison of ordering keys |
| `ReducerProperties.OrderedListDoesNotRegress` | crates/market-state/src/reducer.rs:105-128 | a single-instrument list in the global order is never refused as an ordering or match-time regression, whatever else is refused |
| `Reducer.MarketStateReducer.ProposeEvent` | crates/market-state/src/reducer.rs:105-247 | changing a copy field by field is the specified proposal, whose fields `ReducerFields.AcceptedFields` gives, and leaves the state alone |
| `Reducer.MarketStateReducer.CommitProposal` | crates/market-state/src/reducer.rs:249-262 | the state is replaced only by a proposal made from its version |
| `Reducer.MarketStateReducer.ApplyEvent` | crates/market-state/src/reducer.rs:264-272 | the state is the specified one, and unchanged on an error |
| `Reducer.WorkingState.ObservePayload` | crates/market-state/src/reducer.rs:154-224 | the setters applied for each payload are the specified change, or its error |
| `Reducer.WorkingState.ObserveSignal` | crates/market-state/src/reducer.rs:300-367 | the signal, phase and auction after a signal are the specified ones, which `ReducerFields.AcceptedFields` spells out |
| `Reducer.WorkingState.ObserveVolume` | crates/market-state/src/reducer.rs:369-402 | the volume is set, cleared or refused as specified |
| `Reducer.WorkingState.EnterSegment` | crates/market-state/src/reducer.rs:132-153 | a new segment resets or carries the fields as its policy says |
| `CivilDate.CivilRoundTrip` | crates/market-types/src/match_time.rs:298-328 | every valid date is what its day number converts back to |
| `CivilDate.DaysRoundTrip` | crates/market-types/src/match_time.rs:298-328 | every day number converts to a valid date, and back to itself |
| `CivilDate.DaysIncrease` | crates/market-types/src/match_time.rs:315-328 | later dates have greater day numbers |
| `TextLayout.DaysCount` | crates/market-types/src/match_time.rs:298-328 | day 0 is 1970-01-01, and each day has the number after that of the day before |
| `CalendarText.FourDigitYears` | crates/market-types/src/trading_date.rs:9-18 | the accepted day numbers are exactly those of the years 0 to 9999 |
| `CalendarText.ParseInvertsShowDate` | crates/market-types/src/trading_date.rs:33-74 | every trading date is what its text parses to |
| `CalendarText.ShowInvertsParseDate` | crates/market-types/src/trading_date.rs:33-74 | every accepted text is the text of its date, and the range check after a valid date never fails |
| `TextLayout.ShowsDate` | crates/market-types/src/trading_date.rs:71-83 | a date is written `YYYY-MM-DD` |
| `InstantText.ReadFraction` | crates/market-types/src/match_time.rs:235-263 | the digit loops read the fraction in microseconds, with the errors for other characters and for digits that would be lost |
| `InstantText.ParseInvertsShowInstant` | crates/market-types/src/match_time.rs:68-262 | every instant that can be shown at an offset is what its text parses to |
| `InstantText.RepresentableExactly` | crates/market-types/src/match_time.rs:63-65 | the range that event frames accept is exactly what can be shown in UTC |
| `TextLayout.ParsesInstantExactly` | crates/market-types/src/match_time.rs:159-276 | a text is read as an instant if and only if it is that instant written out: date, `T`, time, an optional fraction and `Z` or an offset, with nothing past the sixth digit but zeros |
| `TextLayout.ShowsInstant` | crates/market-types/src/match_time.rs:68-93 | an instant is shown with six digits and its offset in hours and minutes |
| `DecimalText.ParseDecimal` | crates/market-types/src/decimal.rs:127-234 | the loops within 128 bits give exactly the rational the text denotes, or the reason there is none |
| `DecimalText.ParseExponent` | crates/market-types/src/decimal.rs:236-274 | the exponent is read within 64 bits, the least value included |
| `DecimalText.ComputeAtoms` | crates/market-types/src/decimal.rs:190-234 | removing digits or adding zeros gives the scaled value when it is whole and in range, and otherwise says which failed |
| `DecimalText.ParsesExactly` | crates/market-types/src/decimal.rs:127-289 | a text parses to an atom count if and only if it is a number that denotes that count, by cross-multiplication, and the count and the shifted exponent are in range |
| `DecimalText.TextLosesPrecisionExactly` | crates/market-types/src/decimal.rs:196-214 | a number's text is refused for lack of precision if and only if it denotes no whole number of atoms |
| `DecimalText.AtomsAreExact` | crates/market-types/src/decimal.rs:180-289 | a successful scaling has the value of the digits times the power of ten, by cross-multiplication |
| `DecimalText.PrecisionLostExactly` | crates/market-types/src/decimal.rs:196-214 | scaling loses precision if and only if the power of ten does not divide the digits |
| `DecimalText.ParseInvertsShow` | crates/market-types/src/decimal.rs:83-102 | every 128-bit atom count, the least included, is what its text parses to |
| `TextLayout.ScansExactly` | crates/market-types/src/decimal.rs:127-178 | a text is a number if and only if it is a sign, digits, a point with digits and an exponent, of which only digits on one side are needed, and its parts are read as written |
| `TextLayout.ShowsDecimal` | crates/market-types/src/decimal.rs:83-102 | atoms are written without exponent, plus sign, superfluous zero or superfluous point |

## Left out

- ScheduledRuns.RunKeepsInv: asks for order ids that are new, because the source takes them from a hash.
- MatchingProperties.RunKeepsInv: asks for order ids that are new, for the same reason.
- ScheduledSimulators.ScheduledDepthSimulator.EvaluateActiveOrders: does not sort the collected orders by sequence and id: orders are appended with rising sequences, which the invariant states, so the sort leaves them as they are; the same holds of `EvaluateAuctionMatch` and of the sort in `Matching.Simulator.MatchOrders`.
- ScheduledSimulators.ScheduledDepthSimulator.RecordFills: gives the two lists of fills and of feedback one record type, without fill ids, and without the client id and the remaining quantity, which follow from the order; the field that remembers when a book was published, and the origin of a fill, exist only for the proof.
- MultiLedgers.MultiLedger.Open: keeps the instruments in a sorted list beside the map, where the source has a sorted map.
- MultiLedgers.MultiLedger.Fill: holds ledgers as values and makes an object of the one that is filled.
- AtomicDepth.DepthBooks.ExecuteAtomic: holds each book with its consumption as a value; applying a sweep makes a new one in place of changing two arrays.
- ExactArithmetic.DivideRoundMeetsPolicy: wraps the doubled remainder around at 128 bits; a build that checks arithmetic stops there instead.
- DecimalText.ParseDecimal: takes the length of the input to fit 64 bits, so that the checks on lengths cannot fail.
- FrameCodec.DecodeInvertsEncode: writes an encoding in front of what follows it; pushing the same bytes onto a growing vector is not modelled as an object.
- UTF-8 validity is a parameter of the codec, and hashes are parameters of the ordering and the reducer; nothing is assumed of either.
- Order ids, fill ids, provenance and canonical request bytes, which are hashed or only carried along.
- The order type of control times themselves, their queue, and the runner that drives the simulators are not part of this model.
- Price-limit, tick and profile tables: profiles are values, and their built-in instances are not listed.
- Storage, cache files, manifests, artifacts, command line, configuration and providers: file and process plumbing.
- Views and accessors of the market state, decoding of status bytes, and error display.
- The multi-stream merge and the replay engine, and the simulator facade that only forwards to one simulator per instrument.
