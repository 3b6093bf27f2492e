# A verified model of the openhl state machines

openhl is a perpetual-futures chain: a limit order book and clearing engine behind a
consensus bridge, with liquidations, an insurance fund, auto-deleveraging, a vault, an
oracle and funding around them. This project models those deterministic integer state
machines in Dafny and proves what they promise over whole runs. `dafny verify
dfyconfig.toml` checks all of it.

Where the source updates an object, the model has a class with the same fields, and each
method is proved to compute a function of the old state; the laws are then proved about
those functions, over every sequence of calls. Where the source is an expression, so is the
model. Every clamp, wrap-around and truncation is written out (`Machine`).

## What is proved

**Book** (`Clob`, `BookRuns`, `OrderBook`). Two ordered maps of FIFO queues, changed in place,
act exactly like one list per side in price-time order: same fills, same remainders, same
cancels. Every fill names its two parties, every reachable book is uncrossed, and every unit
submitted is traded, discarded, cancelled or resting.

**Clearing and bridge** (`Clearing`, `Accounts`, `Chain`, `BridgeRuns`, `Bridge`). Over any run
of orders (self-trades included), deposits, withdrawals and block building, each account's
position and equity move by its own trades, positions sum to zero, total equity at every mark is
net deposits plus the remainders of floored average prices, and every fill ends up in exactly
one payload or in the buffer, in order. A withdrawal is paid exactly when what stays covers the
margin at the price that counts. Committed headers and accounts survive a snapshot exactly; what
was in flight does not.

**Replication** (`EngineApp`, `Streams`, `Network`, `Replication`, `Heights`, `BlockTimes`). The
engine application loop is proved against a message handler; N copies of the handler over N
bridges form a network in which messages may be delayed, lost, repeated and reordered, anybody
may inject forged ones, and any validator may stop, save its bridge and start again. Whatever
the interleaving and the forgeries, validators commit the same blocks at the same heights, the
blocks form a chain, no build or commit is refused, and a restart loses and repeats no commit. A
validator stops for want of a time exactly at a decision it has not vouched for since it was
last started. The times recorded and handed to the commit hooks are the headers', and so agree,
exactly while no bridge accepts a block with another time beside its header. The validators
themselves are honest. The consensus engine is an assumption: it asks a validator for a value at
the height that validator is working on, decides one offered value per height, and reports
decisions in height order. The block hash is injective.

**Safety net** (`Margin`, `Scanner`, `ScanFlows`, `Adl`, `Node`, `NodeRuns`). Margin classes
without the division, their monotonicity in the mark, and their agreement with clearing's free
collateral; the scan as a walk reflected at zero; deleveraging as the shortest ranked prefix;
the block tick that composes them, and a restart after which the node is in the same state again
exactly when every feed was renewed.

**Vault** (`Vault`), **oracle** (`Aggregation`, `Oracle`), **funding** (`Funding`). Price per
share over runs, round-trip bounds, robustness and order independence of the index, settlement
spacing, payment bounds and the nearly zero sum.

**Small pieces** (`RevertGuard`, `Signing`, `Validators`). The savepoint stack against call
trees, injective signing bytes, canonical validator order and fair rotation.

## Where the code differs from what is said about it

- The commit hook is promised the block header's timestamp (crates/consensus/src/engine_app.rs:77-83),
  and the tick runs on it (bin/openhl/src/main.rs:965-1050), but a bridge checks only the hash of a
  received header and takes the timestamp beside it as it comes. A fresh node hands any time to its
  hook for any header (`FreshNodeReportsAnyTime`), and two validators that commit the same block can
  hand out different times (`TimesCanDiffer`). All recorded and reported times stay the headers'
  exactly while no step completes a stream whose accepted bytes give another time
  (`TrueThroughoutExactly`, `RecordsTrueTimeExactly`).
- An unfilled deficit does not imply an empty fund at the end of a scan, as a comment at
  crates/liquidation/src/scanner.rs:460 says: `FundEmptyExactlyWhenDrainPeaksLast` gives the
  condition, `LaterFeeRefillsFund` an input.
- `feeds_used` is documented at crates/oracle/src/types.rs:130 as the feeds left after the
  deviation filter; it counts the fresh feeds before it. `FeedsUsedCountsContributingExactly`
  says when the two agree, `DroppedFeedIsCounted` is an input where they do not.
- An account closed in a scan can be deleveraged in the same tick: exactly when it is eligible
  and the profits ranked before its own do not cover the unfilled deficit
  (`ClosedAndDeleveragedExactly`, with `ClosedAccountCanBeDeleveraged` an input). One without
  equity never is (`InsolventNeverDeleveraged`).
- Slightly negative equity classifies as Liquidatable, not Underwater, because the ratio
  truncates (`HealthMeaning`, `SlightDebtIsLiquidatable`); a flat account is always Safe.
- A long's class follows the mark exactly while both rates are at most 100%
  (`LongsMonotoneExactlyUpTo100Percent`), and that needs its profit and equity to stay below the
  i64 ceiling at the higher mark: over clamped longs too, it does only at zero rates
  (`ClampedLongsMonotoneExactlyAtZero`, with `CappedLongUnder100Percent` an input under 100%). A
  short's follows it at every rate while its profit does not clamp (`HealthMonotone`), and at no
  rate otherwise (`CappedShortImproves`).
- Price per share falls in a deposit exactly when the shares added, after the u64 ceiling, are
  more than proportional to the assets kept, after the i64 ceiling
  (`DepositKeepsPriceExactly`). A clamped deposit may do so (`ClampedDepositDilutes`) or not
  (`ClampedDepositCanConcentrate`); one whose assets fit never does.
- A deposit and withdrawal gains in exactly two cases (`RoundTripGainsExactly`): for the first
  depositor of a vault that already held assets, and where the share total is clamped at the u64
  ceiling and the shares minted are then worth more than was paid (`ShareCeilingGains`, reached
  from an empty vault by `ShareCeilingReachable`).
- A funding payment goes the right way exactly while size times mark times rate stays above the
  least i128; below it the negation wraps (`PaymentDirection`, `LargestShortPays`). A rate cap of the
  least i64 has no magnitude in an i64 and makes every rate the least i64, which is the wrong way
  from the index up.
- A restored oracle price is stored unchecked: the cached index stays positive exactly when every
  restored one is (`StaysPositiveExactly`).
- The rotation is unfair where height plus round wraps, unless the number of validators divides
  2^64 (`FairRotation`, `ThreeAtTheSeam`).
- The deadline of a funding clock is clamped to the last u64 second, so the documented spacing
  holds exactly up to that second (`SpacingExactlyWhenItFits`, `ClampedDeadlineSettlesEarly`).

## Model

| member | source | states |
|---|---|---|
| OrderBook.Book.Submit | crates/clob/src/book.rs:42-47 | on any valid book the two maps of queues, flattened, and the result are those of the flat price-time list; no level is left empty |
| OrderBook.Book.SubmitLimit | crates/clob/src/book.rs:49-127 | the matching loops and the resting of a limit order do to the flattened maps what the flat book does |
| OrderBook.Book.SubmitMarket | crates/clob/src/book.rs:130-172 | the same for a market order, which never rests |
| OrderBook.Book.Cancel | crates/clob/src/book.rs:179-199 | removes the first order with the id, bids before asks, drops the emptied level and reports whether one was found |
| OrderBook.Walk | crates/clob/src/book.rs:53-99 | taking from the best level until filled, empty or unacceptable gives the fills, remainder and levels of the walk over the flat list |
| OrderBook.MatchAtLevel | crates/clob/src/book.rs:244-275 | one fill for the smaller quantity that names the maker's order and account, the taker's, and the maker's price and side; a used-up maker leaves its queue |
| OrderBook.RetainWithout | crates/clob/src/book.rs:181-198 | the retain pass over all levels removes from the flat list exactly the first order with the id and leaves no empty level |
| OrderBook.FlattenPush | crates/clob/src/book.rs:101-115 | pushing onto a level's queue is queueing behind every order priced at least as well |
| OrderBook.FlattenSplit | crates/clob/src/book.rs:16-22 | reading levels in key order, a better-priced part of the map is a prefix of the flat list |
| Clob.TakeConsumesPrefix | crates/clob/src/book.rs:53-99 | price-time priority: the makers hit are the front of the list, in order, in full but for the last, and the taker stops only when filled or nothing acceptable is left |
| Clob.FillsNameTheirParties | crates/clob/src/book.rs:244-275 | for every book and every submit, fill i has the order id, account and price of the i-th resting order of the other side, and the id and account of the order submitted |
| Clob.RestsUnderItsName | crates/clob/src/book.rs:101-127 | what a limit order does not get rests under its own id, account and price, behind every order priced at least as well; nothing else on its side changes, and a market order never rests |
| Clob.CancelTakesOne | crates/clob/src/book.rs:179-199 | a cancel takes the first order with the id off the bids, off the asks only if no bid has it, and otherwise does nothing and says so |
| Clob.AheadSplits | crates/clob/src/book.rs:101-115 | a resting order goes behind all orders priced at least as well and ahead of all priced worse |
| Clob.RemoveFirstAt | crates/clob/src/book.rs:181-198 | a cancel takes out one order, the first with the id, and nothing else |
| BookRuns.SubmitKeepsValid | crates/clob/src/book.rs:42-172 | submitting keeps both sides sorted, the book uncrossed and every resting quantity positive |
| BookRuns.CancelKeepsValid | crates/clob/src/book.rs:179-199 | so does cancelling |
| BookRuns.SubmitFillsExactly | crates/clob/src/book.rs:49-172 | a submit fills exactly the smaller of its quantity and the opposite liquidity at acceptable prices, and reports a remainder only for a market order |
| BookRuns.ReachableBookBalances | crates/clob/src/book.rs:42-199 | every reachable book is valid, and submitted = 2 filled + discarded + cancelled + resting |
| BookRuns.MarketOrderSplits | crates/clob/src/book.rs:130-172 | one market order for q1 + q2 leaves the book, the traded and the leftover totals of q1 followed by q2 |
| Clearing.FillLawsExactlyWhenFits | crates/clearing/src/lib.rs:149-247 | a fill moves the position by its signed quantity and equity by the gain since the fill price plus the averaging remainder, at a mark exactly when size and realized profit fit an i64 |
| Clearing.WeightedEntryExact | crates/clearing/src/lib.rs:209-244 | while the size fits, the floored average entry is exact: its i128 and u64 clamps are unreachable |
| Clearing.RealizedExact | crates/clearing/src/lib.rs:187-196 | the realized profit saturates only in the last narrowing, never in the i128 product |
| Clearing.FillShape | crates/clearing/src/lib.rs:149-247 | what opening, growing, partly closing and flipping each do to size, entry and collateral |
| Clearing.RemainderBound | crates/clearing/src/lib.rs:218-233 | the averaging remainder is zero unless the position grew, has the position's sign and is smaller in size than the new position |
| Clearing.WithdrawFits | crates/evm/src/live_node.rs:583-603 | the unchecked subtraction of a permitted withdrawal cannot overflow |
| Accounts.ApplyOneConserves | crates/evm/src/live_node.rs:497-514 | a fill between any two accounts, or one with itself, creates no position and changes total equity only by the two remainders |
| Accounts.SideRemainderBound | crates/evm/src/live_node.rs:503-512 | each side's remainder is zero unless that side grew, and smaller than the position the fill left |
| Accounts.ApplyAllConserves | crates/evm/src/live_node.rs:497-514 | the same for a list of fills applied in order |
| Accounts.RemaindersBound | crates/evm/src/live_node.rs:497-514 | the remainders of a list of fills add up to at most that sum |
| Accounts.EquitiesMove | crates/evm/src/live_node.rs:497-514 | every account's own equity at every mark moves by what its own sides of the fills gained since their prices, plus its own averaging remainders |
| Accounts.BystandersStay | crates/evm/src/live_node.rs:497-514 | an account on neither side of any fill stays as it is |
| BridgeRuns.SubmitMovesPositions | crates/evm/src/live_node.rs:481-514 | an order moves every account's position by what left the other side of the book: all of it towards the account that submitted, and away from each maker what left its own resting orders; a buy adds, a sell takes away |
| BridgeRuns.TakerAndMakersMove | crates/evm/src/live_node.rs:481-514 | a taker that is none of its own makers moves by its sign times the filled quantity, and each maker the other way by what it filled |
| BridgeRuns.DepositCredits | crates/evm/src/live_node.rs:554-559 | a deposit credits the named account, created flat if absent, and changes no other |
| BridgeRuns.WithdrawAtEntryExactly | crates/evm/src/live_node.rs:705-720 | without an oracle price and with one side of the book empty, an amount is paid if and only if what stays covers the margin at the entry price, profit not counting; paid or refused, nothing else changes |
| BridgeRuns.WithdrawAtOracleExactly | crates/evm/src/live_node.rs:288-292 | with an oracle price, the same by equity and requirement at that price, whatever the book holds |
| BridgeRuns.WithdrawAtMidpointExactly | crates/evm/src/live_node.rs:634-642 | with both sides of the book and no oracle price, the same at the midpoint, rounded down |
| BridgeRuns.InstalledPriceCounts | crates/evm/src/live_node.rs:243-275 | an oracle price installed on the bridge is the one that counts for withdrawals, a cleared one is gone, and neither changes anything else |
| BridgeRuns.FillsStayAttached | crates/evm/src/live_node.rs:889-910 | every operation keeps each fill attached to one payload or waiting in the buffer, in the order produced |
| BridgeRuns.EveryRunConserves | crates/evm/src/live_node.rs:481-603 | over any run in which no account field clamps, positions sum to zero, equity at every mark is net deposits plus remainders, and no fill is lost, repeated or reordered |
| BridgeRuns.EquityStaysNearDeposits | crates/evm/src/live_node.rs:481-603 | over such a run total equity at every mark differs from net deposits by at most the sum, over the sides that grew, of the new position less one |
| Bridge.LiveBridge.SubmitOrder | crates/evm/src/live_node.rs:481-492 | the object's book, fill buffer and accounts become those of matching followed by clearing |
| Bridge.LiveBridge.ApplyFillsToAccounts | crates/evm/src/live_node.rs:497-514 | the loop credits maker then taker of each fill in order |
| Bridge.LiveBridge.Deposit | crates/evm/src/live_node.rs:554-559 | credits the account, created flat if absent, saturating, and returns the new balance |
| Bridge.LiveBridge.Withdraw | crates/evm/src/live_node.rs:583-603 | debits exactly when the account exists and the amount is within free collateral at the oracle price, else the midpoint, else the entry price |
| Bridge.LiveBridge.BuildPayload | crates/evm/src/live_node.rs:837-910 | builds on a committed block or genesis, drains the fill buffer into the payload, and changes nothing on a refusal |
| Bridge.LiveBridge.Snapshot | crates/evm/src/live_node.rs:666-674 | captures committed headers, head and accounts, sorted by id |
| Bridge.LiveBridge.LoadSnapshot | crates/evm/src/live_node.rs:682-692 | the loop restores them and leaves payloads in flight and the fill buffer alone |
| BridgeRuns.SnapshotRestores | crates/evm/src/live_node.rs:666-692 | after any run, a fresh bridge that loads the snapshot has exactly the accounts, committed headers and head of the one that saved it, and nothing else |
| BridgeRuns.LoadKeepsInFlight | crates/evm/src/live_node.rs:682-692 | on any other bridge it brings exactly those and leaves alone what that bridge has in flight |
| Bridge.LiveBridge.PayloadReady | crates/evm/src/live_node.rs:913-928 | the block view of a pending payload, or a refusal |
| Bridge.LiveBridge.EncodeProposedBlock | crates/evm/src/live_node.rs:1038-1083 | bytes with the header and block view of a pending payload, or a refusal |
| Bridge.LiveBridge.RegisterProposedBlock | crates/evm/src/live_node.rs:1094-1129 | installs the block without fills, or refuses bytes that do not decode and a header that does not hash to the claim |
| Bridge.LiveBridge.FindPending | crates/evm/src/live_node.rs:977-984 | the search over the pending payloads finds one with the hash if and only if there is one |
| Bridge.LiveBridge.CommitBlock | crates/evm/src/live_node.rs:972-987 | makes a pending block with the hash the head, or refuses and changes nothing |
| Chain.BuildSound | crates/evm/src/live_node.rs:837-910 | a build on a known parent succeeds, its header is pending under its own hash, and earlier payloads and the committed chain stay |
| Chain.RegisterSound | crates/evm/src/live_node.rs:1094-1129 | bytes whose header hashes to the claim are always registered, and earlier payloads and the committed chain stay |
| Chain.CommitFinds | crates/evm/src/live_node.rs:972-987 | committing the hash of any pending header succeeds and stores that very header, whichever of several equal payloads is found |
| Chain.EncodeRegisterRoundTrip | crates/evm/src/live_node.rs:1038-1129 | what a proposer encodes a follower registers as the same block, ready for commit |
| EngineApp.Engine.HandleGetValue | crates/consensus/src/engine_app.rs:146-195 | builds, offers and streams a block; the object's new state is the handler's |
| EngineApp.Engine.HandlePart | crates/consensus/src/engine_app.rs:222-257 | buffers a part and registers the block once both parts are there; the object's new state is the handler's |
| EngineApp.Engine.HandleDecided | crates/consensus/src/engine_app.rs:265-304 | looks the time up, commits, calls the hook, records and stops at the quota or at the hook's error; the object's new state is the handler's |
| EngineApp.Engine.RunEngineApp | crates/consensus/src/engine_app.rs:89-324 | the loop over an inbox ends in the state of handling the messages in order, and returns the decided hashes, the failure (the hook's included), or the closed channel |
| Heights.ReportMovesOn | crates/consensus/src/engine_app.rs:284-304 | in any reached state, a report that leaves a validator running moves it to the height after that of the block |
| Heights.AtHeightExactly | crates/consensus/src/engine_app.rs:101-304 | over every run, restarts included, running validators work on the height after those they committed throughout if and only if every round started names that height |
| Heights.AskedAtCurrentHeight | crates/consensus/src/engine_app.rs:124-304 | in such a run the height a validator is asked for a value at, or told a decision at, is the one it works on |
| Streams.StreamsNeverShareAnId | crates/consensus/src/engine_app.rs:334-350 | over any inbox, no two of the first 2^64 streams of a process share an id |
| Replication.BlocksAgree | crates/consensus/src/engine_app.rs:146-304 | over every interleaving, whatever is injected and whoever restarts, any two validators commit the same blocks at the same heights |
| BlockTimes.TrueThroughoutExactly | crates/consensus/src/engine_app.rs:77-83 | over every run, whatever is injected, all times recorded and handed to hooks are the headers' throughout if and only if no step completes a stream whose accepted bytes give another time |
| BlockTimes.RecordsTrueTimeExactly | crates/consensus/src/engine_app.rs:222-242 | in any reached state, the time recorded for a completed and accepted stream is its header's if and only if the block view says the header's time |
| BlockTimes.LogsAgree | crates/consensus/src/engine_app.rs:146-304 | in such a run the (hash, height, time) logs of any two validators are prefixes of one another |
| BlockTimes.CommittedTimesIncrease | crates/consensus/src/engine_app.rs:265-287 | in such a run each time handed to a hook is its header's and the times of a log increase |
| BlockTimes.TimedInjectionsSuffice | crates/consensus/src/engine_app.rs:222-257 | a run is such a run if no injected Data part brings acceptable bytes with another time: garbage, wrong hashes and false parents or numbers do no harm |
| BlockTimes.FreshNodeReportsAnyTime | crates/evm/src/live_node.rs:1094-1129 | a fresh node that gets a block with a chosen time and then its decision hands that time to its hook, for any header and any time |
| BlockTimes.TimesCanDiffer | crates/consensus/src/engine_app.rs:222-287 | a run of two validators that commit one block at one height with different times |
| Replication.CommittedBlocksChain | crates/evm/src/live_node.rs:855-887 | whatever is injected, each committed block builds on the one committed before it, is one higher and one second later, keeps the gas limit and has the base fee the chain specification prescribes |
| Replication.NothingIsRejected | crates/consensus/src/engine_app.rs:146-304 | while nothing is forged, no build, registration or commit is ever refused; a validator stops at an unseen decision or its hook's error, or has committed exactly its quota |
| Replication.BuildNeverRefused | crates/consensus/src/engine_app.rs:146-165 | whatever is injected, a validator asked for a value builds on the last block it committed, one higher and strictly later, offers its hash and runs on |
| Replication.ResultsAreTheLog | crates/consensus/src/engine_app.rs:284-324 | whatever is injected, the loop returns as many hashes as its quota, the last ones it handed to its hook in order, or its error, or how many decisions it made before the channel closed |
| Replication.RejectedExactlyWhenUnacceptable | crates/consensus/src/engine_app.rs:222-257 | whatever was injected before, an injected part makes the bridge refuse if and only if it completes a stream whose bytes do not decode or claim a wrong hash |
| Replication.FailsExactlyWhenUnseen | crates/consensus/src/engine_app.rs:276-281 | whatever is injected, a reported decision is never refused by the bridge, and finds no recorded time if and only if the validator, since it was last started, neither offered that block nor completed a stream carrying it |
| Replication.ResumesWhereItStopped | bin/openhl/src/main.rs:612-639 | whatever ended the loop, a failed hook included, the restarted validator builds on the last block handed out, at the height after it: its chain holds one block for each commit |
| Replication.RestartForgets | bin/openhl/src/main.rs:612-639 | a validator that restarts before a decision is reported, and sees no block after that, stops at that decision, whatever it had vouched for before |
| Replication.ProposalArrives | crates/consensus/src/engine_app.rs:146-257 | the block built by any validator that is asked for a value becomes known, with its header's time, to any other running one that gets the two messages in order |
| Replication.ArrivesInOrder | crates/consensus/src/engine_app.rs:222-257 | acceptable bytes sent as Data and then Fin always get through, whatever was buffered or injected under the same stream before |
| Replication.StreamCompletesInAnyOrder | crates/consensus/src/engine_app.rs:222-257 | Data and Fin in either order give the same state, with the block pending, its time recorded and the validator vouching for it |
| Network.StepOk | crates/consensus/src/engine_app.rs:101-318 | every step of every validator, every injected message and every restart keeps the network invariant: each recorded hash is pending, each offer extends the decision below it, and each bridge's chain holds just the blocks committed |
| Network.DecidedEffect | crates/consensus/src/engine_app.rs:265-287 | a report to a running validator hands the block and the recorded time to the hook and fails only as the hook does, or finds a hash it never vouched for |
| Network.RestartOk | bin/openhl/src/main.rs:612-639 | a restart keeps the invariant of the validator |
| Margin.HealthMeaning | crates/liquidation/src/compute.rs:75-115 | for every position, clamped or not, each class is a division-free test of equity against a share of notional, with the exact effect of truncation |
| Margin.SlightDebtIsLiquidatable | crates/liquidation/src/compute.rs:97-115 | a debt of one that is Liquidatable at every positive maintenance rate |
| Margin.HealthMonotone | crates/liquidation/src/compute.rs:31-115 | as the mark rises a long's class never worsens, at rates up to 100% and gains below the i64 ceiling; a short's never improves, at any rates, while its profit does not clamp; a flat account is Safe; for every collateral, negative included |
| Margin.LongsMonotoneExactlyUpTo100Percent | crates/liquidation/src/compute.rs:97-115 | over all longs below the i64 ceiling at the higher mark this holds if and only if both rates are at most 10000 bps |
| Margin.ClampedLongsMonotoneExactlyAtZero | crates/liquidation/src/compute.rs:45-115 | over all longs, clamped ones too, it holds if and only if both rates are zero |
| Margin.CappedLongUnder100Percent | crates/liquidation/src/compute.rs:45-115 | a clamped long that worsens at rates of 60% and 2% |
| Margin.CappedShortImproves | crates/liquidation/src/compute.rs:45-115 | a short with a clamped profit that improves as the mark rises, at every pair of rates |
| Margin.RatioExact | crates/liquidation/src/compute.rs:75-86 | the ratio is the truncated quotient of equity and notional as they are: its i128 product never saturates |
| Margin.MarginModelsAgree | crates/clearing/src/lib.rs:270-315 | an account is Safe exactly when it has a unit of free collateral, or none and a requirement that was not rounded |
| Margin.WithdrawalLeavesMargin | crates/evm/src/live_node.rs:583-603 | after a permitted withdrawal at a mark the account is Safe, or at zero free collateral by rounding alone |
| Scanner.InsuranceFund.Deposit | crates/liquidation/src/insurance.rs:113-118 | adds a positive fee, saturating, ignores others, and keeps the balance non-negative |
| Scanner.InsuranceFund.WithdrawShortfall | crates/liquidation/src/insurance.rs:132-152 | paid plus unfilled is the shortfall, the balance falls by what was paid, and anything unfilled means the fund is empty |
| Scanner.LiquidationScanner.Scan | crates/liquidation/src/scanner.rs:162-229 | the loop over the fund and the report ends where folding the accounts one by one ends |
| ScanFlows.FlowExactlyWhenFits | crates/liquidation/src/scanner.rs:169-226 | an account's fee and shortfall go through fund and report in full if and only if nothing clamps at its step |
| ScanFlows.ScanIsReflectedWalk | crates/liquidation/src/scanner.rs:169-226 | the unfilled deficit is the largest amount by which the running drain exceeds the starting balance, and the final balance is start minus drain plus unfilled |
| ScanFlows.ScanConserves | crates/liquidation/src/scanner.rs:162-229 | deposits, withdrawals and unfilled deficit add up to the fees and debts of the liquidated accounts |
| ScanFlows.FundEmptyExactlyWhenDrainPeaksLast | crates/liquidation/src/scanner.rs:460-484 | an unfilled deficit leaves the fund empty if and only if the drain peaks at the end of the scan |
| ScanFlows.LaterFeeRefillsFund | crates/liquidation/src/scanner.rs:460-484 | a scan with an unfilled deficit and a non-empty fund |
| ScanFlows.ScanRecords | crates/liquidation/src/scanner.rs:169-226 | the records are the liquidated accounts in scan order with their close orders and outcomes |
| ScanFlows.ClosedExactly | crates/liquidation/src/scanner.rs:169-226 | a scan has a record for an id if and only if an account with that id is to be liquidated |
| ScanFlows.ClosedExactlyWhenFailing | crates/liquidation/src/scanner.rs:169-186 | with distinct ids an account has a record if and only if it has an open position on a positive notional and its equity fails the zero or the maintenance rate |
| ScanFlows.OthersLeaveNoTrace | crates/liquidation/src/scanner.rs:169-186 | any other account leaves the fund and the whole report as they would be without it |
| ScanFlows.FeeMeaning | crates/liquidation/src/compute.rs:165-174 | the fee is the rate's share of the notional, rounded down, up to the i64 ceiling |
| ScanFlows.CloseOrderFlattens | crates/liquidation/src/compute.rs:129-141 | filling the close order at the mark leaves the account flat with its equity as cash |
| ScanFlows.CloseDividesEquity | crates/liquidation/src/compute.rs:190-254 | a solvent close splits equity into fee and residual; an underwater one pays what equity allows and asks the fund for the rest |
| Adl.ExecuteAdl | crates/liquidation/src/adl.rs:172-220 | the loop produces the report of the waterfall over the ranking |
| Adl.AdlAbsorbs | crates/liquidation/src/adl.rs:172-220 | a positive deficit is absorbed up to the total eligible profit, by the shortest ranked prefix that reaches it, each record haircut by what was left |
| Adl.AllButLastCutInFull | crates/liquidation/src/adl.rs:198-219 | every record but the last gives up its whole profit |
| Adl.RecordsExactly | crates/liquidation/src/adl.rs:198-219 | rank n is reached if and only if the profits ranked before it are less than the deficit |
| Adl.DeleveragedExactly | crates/liquidation/src/adl.rs:172-220 | an account is deleveraged if and only if it is eligible and the profits of the candidates that rank before it are less than the deficit |
| Adl.EligibleExactly | crates/liquidation/src/adl.rs:126-142 | eligible are exactly the open positions in profit with positive collateral and equity |
| Adl.ScoreMeaning | crates/liquidation/src/adl.rs:143-154 | the score times collateral and equity never exceeds profit times notional in basis points and, below the i64 ceiling, falls short of it by less than the three truncations |
| Adl.OutscoringPaysFirst | crates/liquidation/src/adl.rs:172-220 | an account whose profit times notional over collateral times equity exceeds another's by more than the rounding has an earlier record wherever the other has one |
| Adl.RecordsByScore | crates/liquidation/src/adl.rs:196-219 | records come by falling score, and by rising account id where scores are equal |
| Adl.AdlIgnoresOrder | crates/liquidation/src/adl.rs:187-197 | permuting candidates with distinct ids changes neither ranking nor report |
| Vault.VaultState.Deposit | crates/vault/src/state.rs:128-168 | the checks in order, then shares and assets grow, or nothing changes |
| Vault.VaultState.Withdraw | crates/vault/src/state.rs:179-213 | the checks in order, then shares and assets shrink, or nothing changes |
| Vault.VaultState.MarkToMarket | crates/vault/src/state.rs:222-224 | replaces the assets and moves no share |
| Vault.DepositAcceptedExactly | crates/vault/src/state.rs:128-168 | a deposit is accepted if and only if it is positive, reaches the minimum and is large enough to mint a share of a solvent vault; the first mints one share for each asset |
| Vault.DepositRefusedBecause | crates/vault/src/state.rs:128-168 | the reason given is the first that applies of sign, minimum, insolvency and size |
| Vault.WithdrawAcceptedExactly | crates/vault/src/state.rs:179-213 | a withdrawal is accepted if and only if it is of some of the shares of a vault with assets, and why not otherwise |
| Vault.SharePriceMeaning | crates/vault/src/compute.rs:87-116 | assets per share in basis points, rounded down; undefined for an insolvent vault and past the i64 ceiling |
| Vault.MintBounds | crates/vault/src/compute.rs:37-59 | minted shares are the floor of the proportional share; the i128 product never saturates |
| Vault.ReleaseBounds | crates/vault/src/compute.rs:75-85 | released assets are the floor of the proportion, always fit, and are all of them exactly when every share is burned |
| Vault.ConversionsDefinedExactly | crates/vault/src/compute.rs:37-85 | when minted shares and released assets are defined |
| Vault.RunStaysBacked | crates/vault/src/state.rs:128-213 | through every run of deposits and withdrawals a solvent vault stays solvent until its last share is burned, when nothing is left over |
| Vault.DepositKeepsPriceExactly | crates/vault/src/state.rs:128-168 | a deposit keeps the assets behind each share if and only if the shares it adds are at most proportional to the assets it adds, both after their ceilings |
| Vault.FittingDepositUndiluting | crates/vault/src/state.rs:128-168 | a deposit whose assets fit an i64 never dilutes, also where the share total is clamped |
| Vault.NeverCheaperExactly | crates/vault/src/state.rs:128-213 | no step of a run lowers assets per share if and only if none of its deposits, each judged at its own step, dilutes |
| Vault.UnclampedRunNeverDilutes | crates/vault/src/state.rs:128-213 | a run in which no accepted deposit takes the assets of its own step past an i64 never dilutes, whatever is rounded away and whatever happens to the share total |
| Vault.RunKeepsPrice | crates/vault/src/state.rs:128-213 | over any such run of deposits and withdrawals assets per share do not fall while shares remain |
| Vault.BurnAllReleasesAll | crates/vault/src/state.rs:179-213 | burning releases everything exactly when every share is burned |
| Vault.ClampedDepositDilutes | crates/vault/src/state.rs:160-161 | a deposit clamped by the i64 ceiling that lowers assets per share |
| Vault.ClampedDepositCanConcentrate | crates/vault/src/state.rs:160-161 | a deposit clamped by the i64 ceiling that raises them |
| Vault.RoundTrip | crates/vault/src/compute.rs:37-85 | on any solvent vault, of the assets kept a round trip loses less than one unit plus one old share price, and it gains exactly through the share ceiling |
| Vault.RoundTripGainsExactly | crates/vault/src/state.rs:128-213 | a round trip gains if and only if the vault had assets and no shares and the deposit is below the largest i64, or the share total is clamped and the minted shares are worth more than the deposit |
| Vault.ShareCeilingGains | crates/vault/src/state.rs:128-213 | a deposit of 4 that withdraws as 8 with shares outstanding |
| Vault.ShareCeilingReachable | crates/vault/src/state.rs:128-224 | three deposits and a mark lead from an empty vault to that one |
| Aggregation.ComputeMedian | crates/oracle/src/compute.rs:27-44 | the median of any input, undefined exactly for none |
| Aggregation.MedianMeaning | crates/oracle/src/compute.rs:27-44 | of any sorted list of the prices, the middle one or the mean of the middle two rounded down |
| Aggregation.AggregatesExactly | crates/oracle/src/compute.rs:97-134 | an index is published if and only if there are enough feeds and enough of them within the cap of their median; otherwise the error says how many there were |
| Aggregation.IndexIsMedianOfNear | crates/oracle/src/compute.rs:97-134 | the index published is the median of exactly the prices within the cap of the first median |
| Aggregation.MajorityHoldsMedian | crates/oracle/src/compute.rs:27-44 | if more than half of the feeds lie in a range, so does the median |
| Aggregation.AggregateIgnoresOrder | crates/oracle/src/compute.rs:97-134 | index or error, the result is the same for every order of the feeds |
| Aggregation.DeviationMeaning | crates/oracle/src/compute.rs:56-63 | a price passes the filter exactly when it is within the cap of the reference, without division or saturation |
| Aggregation.FilterKeepsAllExactly | crates/oracle/src/compute.rs:70-80 | the filter never adds feeds and keeps all of them if and only if all are within the cap |
| Aggregation.IndexNearMedian | crates/oracle/src/compute.rs:97-134 | a published index p is positive and satisfies abs(p - m) * 10000 < (cap + 1) * m for the first median m |
| Oracle.OracleState.Ingest | crates/oracle/src/state.rs:203-286 | the four refusals in order, else the feed's record is replaced and nothing else |
| Oracle.OracleState.IngestSigned | crates/oracle/src/state.rs:227-286 | unknown feed and bad signature are refused before the other checks |
| Oracle.OracleState.Refresh | crates/oracle/src/state.rs:299-317 | publishes the aggregate of the fresh feeds, or keeps the old one on failure |
| Oracle.IngestExactly | crates/oracle/src/state.rs:242-286 | a report replaces its feed's record if and only if it is not from the future, within the window, not zero and not older than the last |
| Oracle.IngestSignedExactly | crates/oracle/src/state.rs:227-240 | the signed way in asks for a registered publisher whose key verifies as well |
| Oracle.RefusedBecause | crates/oracle/src/state.rs:227-286 | the reason given is the first that applies |
| Oracle.SignedRunsAreAuthentic | crates/oracle/src/state.rs:208-240 | over any run without the unsigned way in, each stored record comes from a report that the key registered for the feed at that moment verifies |
| Oracle.KeysAreRegistered | crates/oracle/src/state.rs:106-118 | a feed's key is that of the last registration for it, not revoked since |
| Oracle.FreshPricesExactly | crates/oracle/src/state.rs:299-327 | a refresh aggregates, with multiplicity, exactly the prices of the feeds heard from within the window |
| Oracle.PriceFreshExactly | crates/oracle/src/state.rs:161-179 | the cached index counts up to its maximum age |
| Oracle.StaysPositiveExactly | crates/oracle/src/state.rs:188-317 | every state of a run has positive feed prices and a positive cached index if and only if every price restored in it is positive |
| Oracle.FeedsStayPositive | crates/oracle/src/state.rs:188-317 | no feed price is ever zero, whatever is restored |
| Oracle.RefreshNearMedian | crates/oracle/src/state.rs:299-317 | a refresh publishes a fresh price near a positive median of the fresh feeds |
| Oracle.ReachableRefresh | crates/oracle/src/state.rs:188-317 | the same after any history of calls, restores included |
| Oracle.FeedsUsedCountsContributingExactly | crates/oracle/src/state.rs:299-317 | the published count is that of the feeds the median was taken of if and only if every fresh feed is within the cap of the first median, or the count is at its ceiling either way |
| Oracle.DroppedFeedIsCounted | crates/oracle/src/state.rs:299-317 | three fresh feeds of which one is dropped and still counted |
| Funding.ApplyFunding | crates/funding/src/compute.rs:62-90 | one settlement for each live position, in order, and none at rate zero |
| Funding.SettlesOpenPositions | crates/funding/src/compute.rs:62-90 | at any rate but zero, settlement i is booked to the account of the i-th open position; at zero there are none |
| Funding.FundingClock.Tick | crates/funding/src/clock.rs:69-92 | settles only when an interval has passed, and then moves the clock to now |
| Funding.NoEarlySettlement | crates/funding/src/clock.rs:69-92 | for tick times in any order, settlement n (from 0) is no earlier than genesis + (n + 1) intervals, up to the last u64 second |
| Funding.SpacingExactlyWhenItFits | crates/funding/src/clock.rs:69-92 | settlement n is at least n + 1 whole intervals after genesis if and only if that second is representable |
| Funding.ClampedDeadlineSettlesEarly | crates/funding/src/clock.rs:69-92 | a clock that settles one second after genesis at an interval of an hour |
| Funding.NoCatchUp | crates/funding/src/clock.rs:69-92 | ticks less than an interval after a settlement, or before it, settle nothing |
| Funding.PremiumMeaning | crates/funding/src/compute.rs:24-38 | the premium is the gap over the index in parts per billion, rounded toward zero, up to the i64 ceiling, and has the gap's sign |
| Funding.RateMeaning | crates/funding/src/compute.rs:45-53 | the rate is the premium over the divisor, rounded toward zero, as far as the cap allows |
| Funding.PaymentWithinCap | crates/funding/src/compute.rs:44-90 | no payment exceeds size times mark times cap over the rate scale, even where it is clamped |
| Funding.PaymentExact | crates/funding/src/compute.rs:71-86 | where nothing clamps, a payment is the truncated product, longs paying at a positive rate |
| Funding.PaymentDirection | crates/funding/src/compute.rs:24-90 | longs pay and shorts receive above the index, and the other way round below it, clamped or not, if and only if size times mark times rate is above the least i128; otherwise the payment is the least i64. At a cap of the least i64 that is the condition below the index; elsewhere the payment must be void, or wrap back |
| Funding.LargestShortPays | crates/funding/src/compute.rs:71-86 | a short that pays at a positive premium |
| Funding.FundingNearlyZeroSum | crates/funding/src/compute.rs:62-90 | when sizes sum to zero, payments sum to zero or to less in size than the number of live positions |
| Node.OpenHlNode.Tick | crates/node/src/lib.rs:350-414 | refresh, scan at the oracle's price or the midpoint, deleverage, mark the vault and settle funding, in that order: state and report are those of the composed functions |
| Node.OpenHlNode.MaybeRefreshOracle | crates/node/src/lib.rs:464-482 | tries a refresh when due and moves the deadline only on success |
| Node.OpenHlNode.Snapshot | crates/node/src/lib.rs:428-437 | captures fund, vault, both clocks and the cached price |
| Node.OpenHlNode.LoadSnapshot | crates/node/src/lib.rs:444-462 | restores them into new parts and leaves feeds and publishers alone |
| NodeRuns.RefreshesExactlyWhenDue | crates/node/src/lib.rs:464-482 | a refresh is tried if and only if there was none or an interval has passed; only a successful one moves price and deadline |
| NodeRuns.TickMark | crates/node/src/lib.rs:350-377 | a tick scans and deleverages at the price it just refreshed, else at the cached one up to its maximum age, else at the book's |
| NodeRuns.TickFunds | crates/node/src/lib.rs:383-402 | funding is settled if and only if an oracle price counts and the deadline has passed, at the book's mark for its premium over the oracle price |
| NodeRuns.PositionsAreTheAccounts | crates/node/src/lib.rs:390-398 | it charges every account's own position, in order |
| NodeRuns.TickReportsTheBlock | crates/node/src/lib.rs:378-414 | the report names the tick's block and the vault at the new assets |
| NodeRuns.TickAccountsForEveryCost | crates/node/src/lib.rs:350-414 | fees and debts of closed accounts are paid into the fund, by the fund or by deleveraged traders, or reported as open; absorbed plus remaining is the unfilled deficit |
| NodeRuns.InsolventNeverDeleveraged | crates/node/src/lib.rs:359-377 | no account without equity at the scan mark is in the deleveraging report |
| NodeRuns.ClosedAndDeleveragedExactly | crates/node/src/lib.rs:350-377 | with distinct ids, an account is closed and deleveraged in one tick if and only if it is to be liquidated and eligible, and the profits ranked before its own do not cover the unfilled deficit |
| NodeRuns.ClosedAccountCanBeDeleveraged | crates/node/src/lib.rs:359-377 | such a tick |
| NodeRuns.LoadNeverClears | crates/node/src/lib.rs:444-462 | loading brings back what the snapshot holds, never clears a price, leaves feeds and publishers alone and counts a negative fund as empty |
| NodeRuns.StepKeepsBehind | crates/oracle/src/state.rs:242-286 | the replay guard keeps a restarted node strictly older than the original on every feed not renewed yet |
| NodeRuns.RestartHealsExactlyWhenRenewed | crates/node/src/lib.rs:416-462 | a restarted node reaches the original's state before the next tick if and only if the original has accepted a new observation for every feed it held |
| NodeRuns.RestartIsInvisible | crates/node/src/lib.rs:350-482 | from then on both give the same tick reports for every later input |
| NodeRuns.RestartShowsExactly | crates/node/src/lib.rs:416-482 | the first tick report after a restart differs if and only if a refresh is due and the original has a fresh feed |
| NodeRuns.FreshFeedShowsRestart | crates/node/src/lib.rs:416-482 | a node with one fresh feed whose next report shows the restart |
| RevertGuard.OpenHlRevertGuard.Call | crates/evm/src/precompiles/revert_guard.rs:81-90 | pushes the shared state and changes nothing else |
| RevertGuard.OpenHlRevertGuard.CallEnd | crates/evm/src/precompiles/revert_guard.rs:92-111 | pops, restores only on failure, and does nothing on an empty stack |
| RevertGuard.GuardMeaning | crates/evm/src/precompiles/revert_guard.rs:81-111 | over the trace of any call tree the guard ends in the tree's meaning, where a failed frame contributes nothing, with its stack as before |
| RevertGuard.WellBracketedMeaning | crates/evm/src/precompiles/revert_guard.rs:81-111 | every well-bracketed trace is such a trace, so this covers them all |
| RevertGuard.OpenCallsAreOpen | crates/evm/src/precompiles/revert_guard.rs:56-60 | the list of open frames holds exactly the calls not yet ended |
| RevertGuard.SavepointsAreEntries | crates/evm/src/precompiles/revert_guard.rs:81-111 | at each point of any trace the i-th savepoint is the shared state at the entry of the i-th open frame, and there are no others |
| Signing.VoteSigningBytes | crates/consensus/src/signing.rs:14-31 | the builder's bytes and their length, 38 or 70 |
| Signing.ProposalSigningBytes | crates/consensus/src/signing.rs:35-43 | the builder's bytes and their length, 76 |
| Signing.VoteBytesInjective | crates/consensus/src/signing.rs:14-31 | two votes have the same bytes if and only if they are the same vote |
| Signing.ProposalBytesInjective | crates/consensus/src/signing.rs:35-43 | two proposals have the same bytes if and only if they are the same proposal |
| Signing.VoteIsNoProposal | crates/consensus/src/signing.rs:14-43 | no vote shares its bytes with a proposal |
| Signing.StreamIdsDistinct | crates/consensus/src/engine_app.rs:338-350 | a stream id determines height, round and counter |
| Signing.VoteLayout | crates/consensus/src/signing.rs:14-31 | height and round little-endian, type, whether there is a value, the value, the address: which bytes hold what, no round being minus one |
| Signing.ProposalLayout | crates/consensus/src/signing.rs:35-43 | the same for a proposal |
| Signing.StreamIdLayout | crates/consensus/src/engine_app.rs:338-350 | height, round and counter of a stream id, big-endian |
| Validators.SetIgnoresOrder | crates/consensus/src/types/validator.rs:42-49 | permutations of validators with distinct addresses build equal sets, sorted by power and then address |
| Validators.SetOrder | crates/consensus/src/types/validator.rs:42-49 | the set lists more voting power first and lower addresses first at equal power |
| Validators.LexMeaning | crates/consensus/src/types/validator.rs:42-49 | of two addresses the lower has the lower byte where they first differ |
| Validators.SameProposer | crates/consensus/src/context.rs:36-50 | all nodes choose the same validator for a height and round |
| Validators.RoundsShiftHeights | crates/consensus/src/context.rs:36-50 | round r at height h is the turn of height h + r, and no round counts as round 0 |
| Validators.FairRotation | crates/consensus/src/context.rs:36-50 | any n consecutive heights choose each of n validators exactly once, if and only if the sum does not wrap inside them or n divides 2^64 |
| Validators.ThreeAtTheSeam | crates/consensus/src/context.rs:36-50 | three validators and a window in which they do not each have one turn |

## Left out

- Reth, revm, the payload builder, `new_payload`, fork choice and `validate_payload`: only the synthesized-header path is modelled, and the provider is a lookup of the genesis header.
- Malachite, libp2p, timeouts, restreaming and sync: only the stated assumption about the engine is used; replies other than offered values and commits are not modelled.
- ECDSA, Ed25519 and the block hash: verification is a parameter, the hash an injective one.
- JSON, RPC, CLI, seeds, chain history, reader contracts and the other precompiles: I/O or field copying. Proposal bytes either decode to a header and block view or do not; how is not modelled.
- The commit hook: a function of what it was handed so far to success or error; what it does besides is not modelled.
- bin/openhl's write-back of tick reports into accounts: it closes positions without a counterparty, so the zero-sum law stops there. `with_accounts_mut` of the bridge is left out with it.
- engine.rs and in_memory.rs: simpler copies of the bridge state machine.
- Locks and shared references: the bridge is one sequential object, and messages are handled one at a time.
- Header fields that are constants of the bridge (beneficiary, randao, state root and the like), and the u64 ceilings of block numbers, timestamps and payload ids.
- OrderBook.Walk: the four matching loops of the source, two sides by two order types, are one loop over the maker's side.
- Clearing.FillLawsExactlyWhenFits: the account is a value that is replaced, not a record written through a reference, so aliasing is not captured; the source's accounts are plain copies in a map.
- Chain.CommitFinds: the hash map's `find` may return any payload with the hash; the model takes the one with the least id and proves the choice does not matter.
- BridgeRuns.EveryRunConserves: stated for runs in which no account field clamps; `Clearing.FillLawsExactlyWhenFits` shows that for size and profit this is the exact condition. The midpoint sum wraps, as it does in a release build.
- ScanFlows.ScanIsReflectedWalk: requires that nothing clamps at any account's step; `ScanFlows.FlowExactlyWhenFits` shows that this is the exact condition for one step.
- Vault.RunKeepsPrice: requires that no accepted deposit is clamped by the i64 ceiling on the assets; clamped ones can go either way, and `Vault.NeverCheaperExactly` has the exact condition for those.
- Network.StepOk: a process that dies without saving its bridge resumes from an older snapshot; only restarts that saved are steps.
- Margin.MarginModelsAgree: requires that profit, equity and notional do not clamp at the mark, and a requirement that fits an i64.
- Overflow checks of a debug build: the magnitude of a rate cap of the least i64 and the negation of the least i128 wrap, as they do in a release build.
- Funding.FundingNearlyZeroSum: requires that no product or payment clamps, which also keeps the source's negation in range; where the negation overflows the model wraps, as a release build does.
- Aggregation.ComputeMedian: the library sort is a stable insertion sort on values.
- Validators.SetIgnoresOrder: the in-place sort is a sort on values.
- Quantities such as depth and best price with quantity, feed counts and accessors: easy members.
