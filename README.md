# Paper trading on binary prediction markets — a Dafny model

The repository runs a small pipeline against a prediction-market venue whose contracts pay one
unit on the winning side of a YES/NO question and nothing on the losing side:

1. **Discovery** (`discovery.js`) pages through the venue's open events, a hundred at a time,
   and writes the events that carry an id, a slug, an end date and at least one usable market.
2. **Scanners** read that list (or a fixed list of their own) and write the tradeable
   opportunities: `scannerGeneric.js` looks at both sides of every market closing within four
   hours whose probability lies in [0.80, 0.96] and whose best ask carries at least a dollar;
   `scannerBTCMarkets.js` walks a fixed ladder of Bitcoin strike markets and
   `scannerDailyYesOrNo.js` a hand-curated slug list, both keeping only the YES side in
   [0.80, 0.99] with at least a dollar at the best ask.
3. **Paper traders** read the opportunities, split a budget equally over them, open one
   simulated fill each at the best ask, and then poll: `paperTester.js` settles positions when
   their market closes with a final outcome; `paperTesterLogging.js` also takes a stop-loss
   exit against the best bid when the held side's probability has fallen by a configured drop,
   possibly in several partial exits. `scannerTester.js` combines a scanner and a trader in one
   program, buying a fixed fifth of its budget per eligible side.

Each program is a Dafny module. What a program reads from the network or the file system is a
parameter: a market lookup is `Fetch<Market>` (the request threw, the answer was empty, or a
market), an order-book request is `Option<Book>` (none when it threw), the hours until an end
date are a number already computed from the clock, and a timestamp is a string. JavaScript
numbers that reach a guard are `Num` (a finite value or NaN, where every comparison with NaN is
false), because several guards let NaN through. An exception that escapes a loop ends it: the
scanners then write no output file, and the traders' interval callbacks end in an unhandled
rejection that stops the process.

Loops are methods proved equal to a specification function over their inputs (`Scan`,
`RunSweep`, `OpenAll`, `TradeAll`, `Discover`, …); the wallets are classes whose fields the
methods update, with a `Valid()` invariant tying the balance to the positions and the rows
written. The lemmas state what the programs promise about those functions: which inputs are
kept or rejected (both directions), the order of the output, the fill bounds, the settlement
amounts, the proportional stop-loss cost, and the ledger balance.

`paperTester.js` and `paperTesterLogging.js` each carry their own copy of the allocation loop;
the two differ only in the fields they store on a position. Each module therefore models its
own copy (`Opened`, `OpenAll`, …) over its own `Position` type.

Three behaviours of the code are worth stating because a reader might expect otherwise:

- In `paperTesterLogging.js` the `continue` at line 260 ends the position's turn once the drop
  threshold is met and the order book comes back (lines 194-260), even after a partial exit, so
  the settlement check at lines 265-272 is not reached in that tick and settlement waits for a
  later one. `PaperTesterLogging.StopCheckPreemptsSettlement` states this.
- Several malformed or empty answers throw outside any `try` and end the loop they occur in.
  In the traders, an empty market answer throws when `closed` is read (`paperTester.js:114`,
  `paperTesterLogging.js:265`), and a closed market whose outcome prices do not parse throws
  (`paperTester.js:116`, `paperTesterLogging.js:267`, `scannerTester.js:139`). In the scanners,
  an empty answer throws in `scannerGeneric.js:64` and `scannerBTCMarkets.js:55`, and outcome
  prices or token ids that do not parse throw in `scannerTester.js:93-94`,
  `scannerBTCMarkets.js:68,82` and `scannerDailyYesOrNo.js:68,81`. The model treats each of
  these as ending the loop (`Abort`, `Crash`, `aborted`).
- `scannerTester.js` marks a settled position resolved and writes its row, but never credits
  the payout to the wallet. `ScannerTester.Wallet.Tick` and `ScannerTester.Wallet.Poll` state
  that the balance never changes after the trades.

## Model

| member | source | states |
|---|---|---|
| JsNumber.Minus | paperTesterLogging.js:201 | the drop is a number exactly when both the entry probability and the current one are numbers; NaN on either side gives NaN |
| JsNumber.OutsideBandMeaning | scannerGeneric.js:88-89 | for a finite number the band guard rejects exactly what lies outside [lo, hi]; NaN is never rejected |
| JsNumber.OutsideWindowMeaning | scannerGeneric.js:50-51 | for a finite number the window guard rejects exactly what lies outside (0, hi]; NaN is never rejected |
| Gamma.ResolutionOfCases | paperTesterLogging.js:270-272 | a closed market resolves YES exactly when its first price is the string "1", NO exactly when only its second price is, and is not final otherwise |
| Gamma.HeldProbabilitiesComplement | paperTesterLogging.js:196-199 | the YES and NO probabilities read from the YES price add up to one, and both are NaN when that price is not a number |
| OrderBook.MinPrice | scannerGeneric.js:105 | the best ask is the price of some level and no level is cheaper |
| OrderBook.MaxPrice | paperTesterLogging.js:217 | the best bid is the price of some level and no level bids more |
| OrderBook.AtPriceMembers | scannerGeneric.js:106-108 | the filter keeps exactly the levels quoted at the given price |
| OrderBook.AtPriceSize | scannerGeneric.js:106-113 | with positive level sizes, the size summed at a price is positive exactly when some level sits at it, and never negative |
| OrderBook.BestAskIsLowest | scannerGeneric.js:99-113 | a side has a best ask exactly when it has levels; that ask is at or below every level and carries a positive size |
| OrderBook.BestBidIsHighest | paperTesterLogging.js:212-219 | a side has a best bid exactly when it has levels; that bid is at or above every level and carries a positive size |
| Sums.EqualShares | paperTesterLogging.js:121 | the equal shares `budget / N` of `N` opportunities add back up to the budget |
| Sums.SumAppend | paperTesterLogging.js:92-94 | summing over two lists one after the other adds the two sums |
| Fills.OpenFill | paperTesterLogging.js:129-138 | a fill is bought only at a numeric best ask, at that price, and for a positive size |
| Fills.OpenFillOpens | paperTesterLogging.js:132-136 | with a positive allocation a fill opens exactly when price and size are positive numbers |
| Fills.OpenFillWithinAllocation | paperTesterLogging.js:134-138 | a fill buys at most the size offered, costs size times price, costs a positive amount no larger than the allocation, uses the whole allocation when the ask is deep enough, and buys the whole ask otherwise |
| Fills.SettleOutcomes | paperTesterLogging.js:275-286 | the winning side is paid its size less one percent, the losing side nothing and loses its cost, and the two P&L figures differ by exactly the fee |
| PaperTesterLogging.NothingOpen | paperTesterLogging.js:322-327 | once every position is resolved, no cost basis is left at risk |
| PaperTesterLogging.Opened | paperTesterLogging.js:128-163 | the allocation opens at most one position per opportunity |
| PaperTesterLogging.OpenedAppend | paperTesterLogging.js:128-163 | the allocation handles the opportunities one at a time and keeps their order |
| PaperTesterLogging.NewPositionOk | paperTesterLogging.js:139-153 | a newly opened position is open, unsettled and well formed, and costs a positive amount within the allocation |
| PaperTesterLogging.OpenedPositions | paperTesterLogging.js:128-163 | every opened position is open, unsettled, well formed and costs a positive amount within the allocation |
| PaperTesterLogging.CostsWithin | paperTesterLogging.js:134-139 | at most `n` positions within the allocation each cost at most `n` allocations together |
| PaperTesterLogging.OpenedCost | paperTesterLogging.js:128-139 | the opened positions cost at most one allocation per opportunity in total |
| PaperTesterLogging.AllocationWithinBudget | paperTesterLogging.js:121-139 | the equal split never spends more than the budget |
| PaperTesterLogging.OpenedCount | paperTesterLogging.js:128-136 | with a positive allocation, when every opportunity has a positive price and size, every one of them opens a position |
| PaperTesterLogging.StopExitKeepsRatio | paperTesterLogging.js:221-229 | a partial stop-loss exit keeps the cost per remaining unit unchanged |
| PaperTesterLogging.StopExitAmounts | paperTesterLogging.js:217-259 | a stop-loss exit sells exactly the smaller of the remaining size and the size bid at the best price, a positive amount, credits it at the best bid, releases cost in proportion, leaves non-negative size and cost, and closes the position exactly when nothing is left |
| PaperTesterLogging.StopExitOk | paperTesterLogging.js:221-259 | a stop-loss exit keeps the position well formed and its identity, credits the row's payout, and the credit plus the change in open cost is the row's P&L before fees |
| PaperTesterLogging.ResolveOk | paperTesterLogging.js:265-295 | a settlement keeps the position well formed and balances the books the same way |
| PaperTesterLogging.EvaluateKeepsOk | paperTesterLogging.js:186-295 | whatever one evaluation does, the position stays well formed and the books stay balanced |
| PaperTesterLogging.StopLossFiresExactly | paperTesterLogging.js:186-262 | a stop-loss row is written exactly when the market was fetched, its prices parse, the held probability dropped by at least the threshold, the book came back with bids, and some size sits at the best bid |
| PaperTesterLogging.SettlesExactly | paperTesterLogging.js:265-295 | a settlement row is written exactly when the market was fetched, the stop-loss did not reach the book, the market is closed and its tag is final; it then pays the remaining size on the winning side only, less the fee, and closes the position |
| PaperTesterLogging.StopCheckPreemptsSettlement | paperTesterLogging.js:203-262 | once the threshold is met and the book comes back, the position is either untouched or stopped out in that tick, never settled |
| PaperTesterLogging.AbortsExactly | paperTesterLogging.js:186-267 | the tick ends at a position exactly when its market answer is empty, or the settlement check meets a closed market whose prices do not parse |
| PaperTesterLogging.AdvanceKeepsOk | paperTesterLogging.js:183-184 | one step keeps all positions well formed, leaves the earlier ones alone, and leaves a resolved position as it was |
| PaperTesterLogging.AdvanceBalances | paperTesterLogging.js:227-293 | one step credits exactly the payout it logs, writes at most one row, and its credit plus the change in open cost is the P&L it logs |
| PaperTesterLogging.SweepKeepsOk | paperTesterLogging.js:183-320 | a tick keeps every position well formed and leaves resolved positions as they were |
| PaperTesterLogging.SweepCredits | paperTesterLogging.js:227-311 | a tick credits exactly the payouts of the rows it writes, and writes no more rows than positions |
| PaperTesterLogging.AdvanceRows | paperTesterLogging.js:184-311 | one step logs a row exactly when it changes the position it walks, and never changes a resolved position |
| PaperTesterLogging.SweepRows | paperTesterLogging.js:182-311 | a tick logs one row for each position it changes and no other, so none for a position resolved before it, and at most one per open position |
| PaperTesterLogging.SweepBalances | paperTesterLogging.js:183-320 | over a tick, the credit plus the change in open cost is the P&L before fees of the rows written |
| PaperTesterLogging.SweepKeepsLedger | paperTesterLogging.js:183-320 | a tick keeps the wallet's ledger equation: balance plus open cost equals the starting balance plus the logged P&L |
| PaperTesterLogging.SweepAbortedRest | paperTesterLogging.js:265-267 | after an exception the remaining positions are passed over untouched |
| PaperTesterLogging.SnapshotLists | paperTesterLogging.js:69-85 | the snapshot lists the resolved positions and only those |
| PaperTesterLogging.SnapshotAppend | paperTesterLogging.js:69-85 | the snapshot keeps ledger order |
| PaperTesterLogging.RealizedPnlIsSnapshotTotal | paperTesterLogging.js:92-94 | the realized P&L printed with the snapshot is the total of the after-fee P&L of the rows it lists |
| PaperTesterLogging.OpenAll | paperTesterLogging.js:128-163 | the allocation loop opens exactly the positions `Opened` describes and spends exactly their cost |
| PaperTesterLogging.JoinKeepsBooks | paperTesterLogging.js:139-153 | adding the opened positions keeps every position well formed and adds their cost to the open cost basis |
| PaperTesterLogging.AppendKeepsBooks | paperTesterLogging.js:141-153 | adding one open, well-formed position adds its cost to the open cost basis |
| PaperTesterLogging.RunSweep | paperTesterLogging.js:183-320 | the tick loop computes exactly the sweep `SweepOf` describes, updating positions in place |
| PaperTesterLogging.Wallet.constructor | paperTesterLogging.js:104-108 | the wallet starts with the whole budget and no position |
| PaperTesterLogging.Wallet.Allocate | paperTesterLogging.js:115-163 | no opportunity means exit with nothing opened; otherwise the opened positions are appended in order, their cost is debited, no row is written, and a fresh wallet never goes below zero |
| PaperTesterLogging.Wallet.Tick | paperTesterLogging.js:182-327 | a tick leaves the positions, balance and rows the sweep describes, keeps the ledger invariant, and stops polling exactly when it did not throw and nothing is left open |
| PaperTesterLogging.Wallet.Poll | paperTesterLogging.js:182-333 | the final balance, positions, log and stop flag are exactly those of `PollFrom`: the ticks' sweeps in order until polling stops or one throws; when polling stops nothing is open and the balance is the starting balance plus the logged P&L |
| PaperTesterLogging.PollFrom | paperTesterLogging.js:182-333 | polling runs no tick after it has stopped, and runs every tick given until it stops or one throws |
| PaperTesterLogging.PollKeepsResolved | paperTesterLogging.js:184 | polling never changes a resolved position |
| PaperTester.NothingOpen | paperTester.js:169-173 | once every position is settled, no cost basis is left at risk |
| PaperTester.Opened | paperTester.js:55-89 | the allocation opens at most one position per opportunity |
| PaperTester.NewPositionOk | paperTester.js:66-79 | a newly opened position is unsettled, well formed, and costs a positive amount within the allocation |
| PaperTester.OpenedPositions | paperTester.js:55-89 | every opened position is unsettled, well formed, and costs a positive amount within the allocation |
| PaperTester.CostsWithin | paperTester.js:61-66 | at most `n` positions within the allocation each cost at most `n` allocations together |
| PaperTester.AllocationWithinBudget | paperTester.js:48-67 | the equal split never spends more than the budget |
| PaperTester.OpenedCount | paperTester.js:55-64 | with a positive allocation, when every opportunity has a positive price and size, every one of them opens a position |
| PaperTester.OpenAll | paperTester.js:55-89 | the allocation loop opens exactly the positions `Opened` describes and spends exactly their cost |
| PaperTester.AppendKeepsBooks | paperTester.js:66-79 | adding one unsettled, well-formed position adds its cost to the open cost basis |
| PaperTester.JoinKeepsBooks | paperTester.js:66-79 | adding the opened positions keeps every position well formed and adds their cost to the open cost basis |
| PaperTester.EvaluateKeepsOk | paperTester.js:104-140 | a settlement changes the position only by marking it settled, credits the row's payout, and the credit less the released cost is the row's P&L |
| PaperTester.SettlesExactly | paperTester.js:114-140 | a position settles exactly when its market was fetched, is closed and carries a final tag; it is paid its whole size on the winning side only, with a one-percent fee |
| PaperTester.AbortsExactly | paperTester.js:107-116 | the tick ends at a position exactly when its market answer is empty or closed with prices that do not parse |
| PaperTester.AdvanceKeepsOk | paperTester.js:104-140 | one step keeps all positions well formed, leaves the earlier ones alone, and changes the next one at most by settling it |
| PaperTester.AdvanceBalances | paperTester.js:135-157 | one step credits exactly the payout it writes, writes at most one row, and balances the books |
| PaperTester.SweepKeepsOk | paperTester.js:103-167 | a tick keeps every position well formed and changes each at most by settling it |
| PaperTester.SweepCredits | paperTester.js:139-157 | a tick credits exactly the payouts of the rows it writes, and writes no more rows than positions |
| PaperTester.AdvanceRows | paperTester.js:105-157 | one step writes a row exactly when it changes the position it walks, and never changes a settled position |
| PaperTester.SweepRows | paperTester.js:103-157 | a tick writes one row for each position it settles and no other, so none for a position settled before it, and at most one per unsettled position |
| PaperTester.SweepBalances | paperTester.js:135-140 | over a tick, the credit less the cost released is the P&L before fees of the rows written |
| PaperTester.SweepKeepsLedger | paperTester.js:103-167 | a tick keeps the wallet's ledger equation |
| PaperTester.SweepAbortedRest | paperTester.js:114-116 | after an exception the remaining positions are passed over untouched |
| PaperTester.RunSweep | paperTester.js:103-167 | the tick loop computes exactly the sweep `SweepOf` describes |
| PaperTester.Wallet.constructor | paperTester.js:29-33 | the wallet starts with the fixed budget of 50 and no position |
| PaperTester.Wallet.Allocate | paperTester.js:39-89 | no opportunity means exit with nothing opened; otherwise the opened positions are appended in order and their cost debited, and from the fixed budget the balance does not go below zero |
| PaperTester.Wallet.Tick | paperTester.js:103-173 | a tick leaves the positions, balance and rows the sweep describes, keeps the ledger invariant, and stops polling exactly when it did not throw and everything is settled |
| PaperTester.Wallet.Poll | paperTester.js:103-178 | the final balance, positions, rows and stop flag are exactly those of `PollFrom`: the ticks' sweeps in order until polling stops or one throws; when polling stops everything is settled and the balance is the budget plus the logged P&L |
| PaperTester.PollFrom | paperTester.js:103-178 | polling runs no tick after it has stopped, and runs every tick given until it stops or one throws |
| PaperTester.PollKeepsSettled | paperTester.js:105 | polling keeps every position well formed, never changes a settled one, and changes an unsettled one at most by settling it |
| Scanning.ThenAssociative | scannerGeneric.js:49-138 | gathering results part by part does not depend on how the parts are grouped |
| ScannerTester.SideFindExactly | scannerTester.js:96-119 | a side becomes a candidate exactly when its probability passes the band, its book has asks and the best ask is worth at least 10; the scan ends there exactly when the band passes and the book request throws |
| ScannerTester.SideFindShape | scannerTester.js:96-119 | a side yields at most one candidate, of that side, market and event hours, and liquid |
| ScannerTester.MarketFindShape | scannerTester.js:89-121 | a market yields at most its two sides, YES before NO, each liquid and of that market; a thrown lookup ends the scan, an empty answer or a missing price or token field yields nothing, a field present but unparsable ends the scan |
| ScannerTester.MarketsAbortedRest | scannerTester.js:89-121 | after an exception no later market adds a candidate |
| ScannerTester.ScanAbortedRest | scannerTester.js:84-123 | after an exception no later event adds a candidate |
| ScannerTester.ScanFindSound | scannerTester.js:84-123 | every candidate is liquid and belongs to an event inside the window |
| ScannerTester.EventMarketsSound | scannerTester.js:89-121 | every candidate of an event is liquid and carries that event's hours |
| ScannerTester.ScanMarkets | scannerTester.js:89-121 | the loop over an event's markets computes exactly `MarketsFind` |
| ScannerTester.Scan | scannerTester.js:84-123 | the scan loop computes exactly `ScanFind` |
| ScannerTester.PaperTradeExactly | scannerTester.js:50-71 | a trade happens exactly when the size is positive and the balance covers the cost; it buys at most the quoted size at the best ask and leaves the balance non-negative |
| ScannerTester.PaperTradeWithinAllocation | scannerTester.js:51-56 | at a positive price a trade spends at most a fifth of the budget |
| ScannerTester.Traded | scannerTester.js:112-119 | the trades open at most one position per candidate |
| ScannerTester.TradedBooks | scannerTester.js:50-71 | the trades debit exactly what the new positions cost, every new position is well formed and unsettled, and the balance stays non-negative |
| ScannerTester.TradeAll | scannerTester.js:112-119 | the trade loop computes exactly `Traded` |
| ScannerTester.SettlesExactly | scannerTester.js:136-169 | a position settles exactly when its market was fetched, is closed and carries a final tag; it is then only marked settled, and its row pays the whole size on the winning side only, less the fee |
| ScannerTester.AbortsExactly | scannerTester.js:136-139 | the tick ends at a position exactly when its lookup threw or its closed market's prices do not parse |
| ScannerTester.AdvanceKeepsOk | scannerTester.js:133-169 | one step keeps the earlier positions, changes the next one at most by marking it settled, and writes at most one row |
| ScannerTester.SweepKeepsOk | scannerTester.js:131-180 | a tick changes each position at most by marking it settled, and writes no more rows than positions |
| ScannerTester.AdvanceRows | scannerTester.js:133-169 | one step writes a row exactly when it changes the position it walks, and never changes a settled position |
| ScannerTester.SweepRows | scannerTester.js:131-169 | a tick writes one row for each position it settles and no other, so none for a position settled before it, and at most one per unsettled position |
| ScannerTester.SweepKeepsCosts | scannerTester.js:131-180 | a tick leaves the total cost of the positions unchanged |
| ScannerTester.SweepAbortedRest | scannerTester.js:136-139 | after an exception the remaining positions are passed over untouched |
| ScannerTester.RunSweep | scannerTester.js:131-180 | the tick loop computes exactly the sweep `SweepOf` describes |
| ScannerTester.Wallet.constructor | scannerTester.js:29-32 | the wallet starts with the fixed budget of 50 and no position |
| ScannerTester.Wallet.ScanAndTrade | scannerTester.js:84-123 | the scan's candidates are traded in order until the scan throws; the new positions are appended, their cost debited, and the balance stays non-negative |
| ScannerTester.Wallet.Tick | scannerTester.js:132-179 | a tick leaves the positions and rows the sweep describes and never changes the balance |
| ScannerTester.Wallet.Poll | scannerTester.js:131-180 | the final balance, positions and rows are exactly those of `PollFrom`: the watcher never stops of its own accord, every tick's sweep runs until one throws, and the balance never changes |
| ScannerTester.PollFrom | scannerTester.js:131-180 | the watcher runs every tick given until one throws, and never changes the balance |
| ScannerTester.PollKeepsSettled | scannerTester.js:134 | the watcher keeps every position well formed, never changes a settled one, and changes an unsettled one at most by marking it settled |
| ScannerTester.Wallet.Boot | scannerTester.js:183-187 | the trades found before any throw are appended and the balance is what they left; when the scan threw nothing else happens, otherwise the watcher continues from that state exactly as `PollFrom` says |
| ScannerGeneric.SideFindExactly | scannerGeneric.js:85-135 | a side is recorded exactly when its own price passes the band, its book has asks and the best ask is worth at least 1; the record carries that side's price, token, best ask and size |
| ScannerGeneric.MarketFindShape | scannerGeneric.js:53-137 | a market yields at most its two sides, YES before NO, only with two parsed prices and tokens; it ends the scan exactly when its answer is empty |
| ScannerGeneric.MarketFindSound | scannerGeneric.js:53-137 | every record of a market in the window passes the band, the liquidity floor and the window, and carries the event's hours |
| ScannerGeneric.SideFindSound | scannerGeneric.js:85-135 | every record of a side of a market in the window passes the band, the liquidity floor and the window, and carries the event's hours |
| ScannerGeneric.MarketsFindSound | scannerGeneric.js:53-137 | every record of an event in the window passes the band, the liquidity floor and the window |
| ScannerGeneric.ScanFindSound | scannerGeneric.js:49-138 | every record of the scan passes the band, the liquidity floor and the window |
| ScannerGeneric.ScanFindAppend | scannerGeneric.js:49-138 | the records keep the events' order |
| ScannerGeneric.MarketsAbortedRest | scannerGeneric.js:53-137 | after an exception no later market adds a record |
| ScannerGeneric.ScanAbortedRest | scannerGeneric.js:49-138 | after an exception no later event adds a record |
| ScannerGeneric.ScanMarkets | scannerGeneric.js:53-137 | the loop over an event's markets computes exactly `MarketsFind` |
| ScannerGeneric.Scan | scannerGeneric.js:33-154 | the scanner writes exactly `ScanOutput`: nothing without an event array or after an exception, otherwise every record in order |
| YesRung.PriceAndBookExactly | scannerBTCMarkets.js:66-118 | the YES tail throws exactly on prices that do not parse, or tokens that do not parse after the band; it keeps exactly a market whose YES price passes the band, whose tokens parse and whose best ask is worth at least 1, carrying the first token |
| Decimal.Digits | scannerBTCMarkets.js:43 | a whole number's text is a non-empty string of decimal digits |
| Decimal.ValueOfDigits | scannerBTCMarkets.js:43 | reading a whole number's text back gives the number |
| Decimal.DigitsInjective | scannerBTCMarkets.js:43 | different whole numbers have different texts |
| ScannerBTCMarkets.SlugNamesStrike | scannerBTCMarkets.js:42-43 | the strike can be read back from its market slug |
| ScannerBTCMarkets.RungSlugInjective | scannerBTCMarkets.js:42-43 | different strikes give different market slugs |
| ScannerBTCMarkets.RungFindExactly | scannerBTCMarkets.js:46-133 | a rung throws exactly when its answer is empty or the YES tail throws inside the window; it is kept exactly when it has an end date, is inside the window and passes the YES tail, and its record names its own strike |
| ScannerBTCMarkets.RungFindStrike | scannerBTCMarkets.js:46-133 | a kept rung's record names the rung's own strike |
| ScannerBTCMarkets.LadderFindSound | scannerBTCMarkets.js:42-134 | at most one record per strike, each well formed and carrying a strike of the ladder |
| ScannerBTCMarkets.LadderFindOrdered | scannerBTCMarkets.js:42-134 | on an increasing ladder the records keep strike order |
| ScannerBTCMarkets.LadderIncreasing | scannerBTCMarkets.js:6 | the fixed strikes increase |
| ScannerBTCMarkets.ScanOutputOrdered | scannerBTCMarkets.js:42-146 | the output has at most nine records, one per strike at most, in increasing strike order |
| ScannerBTCMarkets.LadderAbortedRest | scannerBTCMarkets.js:42-134 | after an exception no later rung adds a record |
| ScannerBTCMarkets.Scan | scannerBTCMarkets.js:35-150 | the scanner writes exactly `ScanOutput` |
| ScannerDailyYesOrNo.MarketFindExactly | scannerDailyYesOrNo.js:47-131 | a market throws exactly when it passed the field and time filters and the YES tail throws; it is kept exactly when it passes them and the tail, tagged with the list's slug |
| ScannerDailyYesOrNo.ListFindSound | scannerDailyYesOrNo.js:44-132 | at most one record per slug, each well formed and naming a slug of the list |
| ScannerDailyYesOrNo.ListFindAppend | scannerDailyYesOrNo.js:44-132 | the records keep the list's order |
| ScannerDailyYesOrNo.ListAbortedRest | scannerDailyYesOrNo.js:44-132 | after an exception no later market adds a record |
| ScannerDailyYesOrNo.Scan | scannerDailyYesOrNo.js:37-147 | the scanner writes exactly `ScanOutput` |
| Discovery.StopPage | discovery.js:30-43 | the loop stops at the first page that failed, is not an array or is empty |
| Discovery.ProjectExactly | discovery.js:53-58 | the projection keeps exactly the markets with an id and a slug, reduced to those two fields |
| Discovery.ProjectAppend | discovery.js:53-58 | the projection keeps the markets' order |
| Discovery.KeepEventExactly | discovery.js:49-68 | an event is kept exactly when it has an id, a slug, an end date and a market with an id and a slug; the kept event carries its fields, the title or "", and the projected markets |
| Discovery.PageEventsOk | discovery.js:49-69 | every event kept from a page is well formed, and no more are kept than the page holds |
| Discovery.PageEventsAppend | discovery.js:49-69 | the events of a page keep their order |
| Discovery.DiscoverFromOk | discovery.js:26-73 | every discovered event is well formed |
| Discovery.DiscoverIgnoresLater | discovery.js:30-43 | pages after the one where the loop stops are never looked at |
| Discovery.KeepAll | discovery.js:49-69 | the loop over a page computes exactly `PageEvents` |
| Discovery.Discover | discovery.js:21-79 | discovery outputs exactly `DiscoverFrom` with its count, having requested offsets 0, 100, 200, … up to the page where it stopped |

## Left out

- HTTP requests, URLs and response parsing: every answer is an input of the model (see above).
- Timers and concurrency: `setInterval` is modelled as a sequence of ticks, each run to its end before the next; overlapping ticks are not modelled.
- The clock: `Date.now()`, `new Date()` and `toISOString()` are inputs (hours to close, timestamps); one timestamp is shared by all fills of an allocation.
- Files: the CSV header, the row text, the output JSON files and `dumpCsvToLogs` are left out; rows and outputs are modelled as values.
- Rounding for display: `toFixed` in CSV rows and log lines is not modelled.
- ScannerGeneric.Scan: its `hoursToClose`, `askSize` and `liquidityUSD` are kept unrounded, because `Number(x.toFixed(2))` is decimal rounding of floating point.
- ScannerBTCMarkets.Scan: its `hoursToClose` and `liquidityUSD` are kept unrounded, for the same reason.
- ScannerDailyYesOrNo.Scan: its `hoursToClose` and `liquidityUSD` are kept unrounded, for the same reason.
- Floating point: amounts are exact reals, so the model has no rounding error in costs, payouts or the ledger equation.
- `Infinity`, and NaN inside order-book levels: book levels are finite numbers.
- Unusual JSON shapes: outcome prices or token ids that parse to a non-array or to `null`, and an event entry that is `null`, are not modelled.
- Side names: only `YES` and `NO` are modelled.
- `scannerTester.js` trades each candidate as soon as it is found; the model scans first and then trades the candidates in the same order, which is equivalent because the trades do not affect what the scan fetches.
- `paperTester.js` writes a `p.strike` column that is always empty; CSV columns are not modelled.
- Discovery pages beyond the given input answer as empty pages.
- The config files, the Express control server and the stdin `snapshot` command (the snapshot itself is modelled), `runPipeline.js`, `uploadCsv.js`, `supabaseClient.js` and `scanner.py` are not part of this model.
- Console logging is left out.
