# Trading core: model and proofs

A model of the trading core of the kalshi-trader app, and proofs about it. The app watches live scores, buys
prediction-market contracts when a strategy's rule matches, settles them, and backtests the same rules on
historical games.

`dafny verify dfyconfig.toml` checks the whole project.

## What is modelled

**The trade lifecycle.** `Trades` holds the tables and what one SQLite commit does to them. `Lifecycle` is a state
machine: one step is a synchronous stretch between two awaits, or one commit; a crash may come between any two
steps, wipes the queue, `busy` and every running attempt, and keeps the rows. The exchange is a map of orders keyed
by `client_order_id`, with the requests of which nobody can yet say that no order will come of them. Answers,
lookups, switches, prices, ticks and clock advances are arbitrary. `Trader` has the objects (the rows, the executor,
the settler); each method performs a stated run of the machine. `Invariant`, `Preservation`, `Ledger`, `Safety`,
`Outcomes`, `Recovery`, `Resolver` and `Rounding` hold the proofs, `Entries` what an attempt must have read to buy,
`Endings` what each wait of an attempt leaves in the rows, `Engine` and `Signalling` the
once-per-game signals; `Purchase`, `Repurchase`, `OrphanedAttempt`, `FalseRefusal` and `FalseNotFound` show
what the assumptions below are needed for.

**The backtest.** `Simulator` is the fold over games, `GameClock` its clock, `Backtest` what its rows and bankroll
mean, `Returns` when it returns and when it throws, `Summary` the metrics. `Refinement` drives the lifecycle machine
through the same ticks and proves that it ends with the same trades and the same bankroll.

**Around them.** `Pricing` and `Guards` (fees, price grids, sizing, entry guards), `Rule` (the lead rule),
`FeedMerge` (several score feeds into one state), `Timeline` (goal events from observed scores), `RateLimiter` (the
token bucket), `Csv` and `Decimal` (two parsers with their printers).

## What is assumed of the environment

The lifecycle theorems speak of every run of the machine under three assumptions, which the code itself relies on:

- (a) A 4xx answer or `NetworkPaused` to Create Order means that no order of the attempt has filled or will. It is
  part of `Lifecycle.Enabled`. The HTTP client repeats the same request after a 5xx, so a later 4xx says this only if
  the exchange treats the repeats as one order. `FalseRefusal` proves that safety after such an answer holds exactly
  when it is true, whenever some read lets the trade buy again.
- (b) An answer to a lookup is true, and "not found" is final: no order comes of the request afterwards.
  `FalseNotFound` proves, for the lookup that follows a lost answer, that if the exchange has the order after all or
  takes it later, safety after a "not found" holds exactly when that order does not fill, whenever some read lets the
  trade buy again.
- (c) At recovery a lookup fails only for an attempt whose trade had gone `pending` (`Lifecycle.RecoveryLooksUp`,
  stated along a run as `LooksUpThroughout`). `OrphanedAttempt` proves that safety holds exactly when no failed lookup
  has left a live attempt pending on an open trade, and that wherever such a trade waits in an open window and some
  read lets it buy, it can be bought twice: it is retried and filled, and the late "not found" takes the filled trade
  back to `waiting`. `OrphanedAttempt.BuysTwice` reaches such a state from a fresh database.

The process clock does not run backwards. For `Rounding`, an order's cost and price are not negative.

## Where the code and its own description differ

- The settler's comment gives realized P&L as payout less cost less fee; the code computes it from the rounded
  average price. `Rounding.PnlWithinRounding` bounds the difference.
- The simulator says it behaves exactly like the live executor. It does, up to three points that `Refinement` makes
  explicit: where the simulator records `skipped_no_price` the executor records `liquidity`; where the leader has no
  market the simulator goes on looking for a price and the executor ends the trade with `no_market`; and where a
  pricing function refuses its arguments the simulator's whole backtest ends with the exception, while the executor's
  attempt ends as `error` and the trade waits (`Refinement.ThrownTryIsError`). `Returns.SimulationThrowsExactly` says
  exactly when a backtest throws, `Returns.InputsReturn` for which inputs it does not, and two concrete inputs
  (`Returns.EmptyTableThrows`, `Returns.ZeroPrecisionThrows`) for which it does.
- `onState` is described as ending a trade when the window has closed. The rule checks the lead before the window, so a
  trade whose lead is gone is left waiting past the window, until the game ends, regulation is over or the sweep finds
  it (`Rule.ClosedExactly`, `Trader.OnStateExactly`).
- The `window_expired` fallback of the simulator is never used: `Backtest.GameMeaning` shows that a skip always has
  the reason of the try at its tick, and `Backtest.SkipHasTry` which reasons these are.
- A finished game is archived with the merged score, which during a disagreement is the last agreed one (or the
  primary feed's when there is none) and can differ from what the finished feed reports
  (`FeedMerge.FinalIsReported`, `FeedMerge.FinalCanBeStale`).
- The finished row and the archive are two commits, and no finished game is polled again. A restart between the two
  leaves a finished game that is never archived (`FeedMerge.UnarchivedExactlyWhenCutOff`, `FeedMerge.NeverArchived`).
- An insert that fails leaves its signal without a trade, and only the engine's mark stands against a second signal
  on the game (`Signalling.RememberedExactly`, `Signalling.GivenUpSignalsAgain`).
- Nothing checks that a price range's start is at most its end; an inverted range can make the snap return a price
  that is on no grid. `Pricing.SnapRightEverywhere` says exactly for which lists it does.
- Writing a record without fields, a single blank field or a leading byte-order mark is not undone by reading
  (`Csv.RoundTrip` is an equivalence).

## Model

| member | source | states |
|---|---|---|
| Safety.NoDoubleBuy | kalshi-trader/app/src/core/executor.ts:417-948 | Over every interleaving of signals, ticks, sweeps, settler passes, crashes, recoveries and truthful exchange answers, two attempt rows of one trade that stand for contracts bought (recorded as filled, or with an order that filled at the exchange) are the same row |
| Safety.OpenOutcomeHolds | kalshi-trader/app/src/core/executor.ts:676-778 | Whenever an order may exist whose outcome is not recorded, its trade and attempt are `pending` with the limit and count that were sent, and no step starts another attempt of that trade |
| Safety.PendingBlocks | kalshi-trader/app/src/core/executor.ts:417-436 | No step of the machine adds an attempt to a trade that is `pending` |
| Safety.GoodFromBoot | kalshi-trader/app/src/core/executor.ts:215-1097 | Every state of every run from a fresh database satisfies the protocol invariant, the audit invariant and the ledger invariant |
| Preservation.StepKeeps | kalshi-trader/app/src/core/executor.ts:251-1097 | Each of the machine's steps keeps the protocol invariant (attempt numbers grow, at most the newest attempt is pending, orders belong to waiting rows, queue and `busy` agree) |
| Preservation.RecoverFinishExact | kalshi-trader/app/src/core/executor.ts:1053-1097 | The second stage of recovery re-establishes the invariant exactly when no pending live attempt is left on a trade that is not `pending` |
| Invariant.PendingLiveMeaning | kalshi-trader/app/src/core/executor.ts:904-909 | The resolver's list holds exactly the pending live attempts that are old enough and not busy, in row order |
| Invariant.LastIsUnique | kalshi-trader/app/src/core/executor.ts:430-436 | Two rows of one trade that carry its current attempt number are one row |
| OrphanedAttempt.BuysTwice | kalshi-trader/app/src/core/executor.ts:806-861 | Such a state is reached from a fresh database: a run with truthful answers and one failed look-up at whose end two orders of one trade have filled |
| OrphanedAttempt.SafeExactlyWithoutOrphans | kalshi-trader/app/src/core/executor.ts:897-948 | The third assumption is exactly what is needed: from a state just before recovery ends, every run that keeps it from there on buys no trade twice and audits only moves of the lifecycle, if and only if no failed look-up has left a live attempt pending on an open trade |
| OrphanedAttempt.OrphanBuysTwice | kalshi-trader/app/src/core/executor.ts:1053-1097 | From every state just before recovery ends in which such an attempt's trade waits in an open window and some read lets it buy, a run that keeps every assumption from there on fills two orders of the trade |
| Purchase.Buys | kalshi-trader/app/src/core/executor.ts:417-778 | From any state in which a trade is at the head of the queue and a read passes the guards with a contract to buy, an order for those terms that fills in part or whole ends as a fill of the trade, in the given order of steps |
| FalseRefusal.BuysTwiceWhenRefusalIsFalse | kalshi-trader/app/src/core/executor.ts:733-751 | From every state in which an order has filled and its answer is still to come, if some read lets the trade buy, a soft "never sent" answer is followed by a run that keeps every assumption and fills a second order of the trade |
| FalseRefusal.EveryPurchaseIsExposed | kalshi-trader/app/src/core/executor.ts:682-732 | From every state of the protocol in which a trade is about to buy, its purchase comes to such a state, with a read that lets it buy again on the same terms |
| FalseRefusal.SafeExactlyWhenUnfilled | kalshi-trader/app/src/core/executor.ts:733-751 | Under the same condition on the read, every run after a soft "never sent" answer is safe if and only if no order of the attempt has filled |
| FalseRefusal.RefusalKeepsExactly | kalshi-trader/app/src/core/executor.ts:733-751 | The protocol invariant survives a "never sent" answer exactly when no order of the attempt has filled |
| FalseRefusal.HardRefusalLosesFill | kalshi-trader/app/src/core/executor.ts:751-751 | After `order_rejected` for an order that filled, the trade is skipped and no row records the fill |
| FalseNotFound.SafeExactlyWhenItNeverFills | kalshi-trader/app/src/core/executor.ts:752-767 | While a trade's order is looked up, for the order that the exchange has or will take: if some read lets the trade buy, every run after "not found" that keeps the other assumptions is safe if and only if that order does not fill |
| FalseNotFound.BuysTwiceWhenNotFoundIsFalse | kalshi-trader/app/src/core/executor.ts:752-767 | If the order fills, before or after the "not found", a run that keeps the other assumptions fills a second order of the trade |
| FalseNotFound.HangingRunIsSafe | kalshi-trader/app/src/core/executor.ts:752-767 | While a request that nobody waits for is still out, every run in which its order comes without a fill, or never, buys no trade twice and audits only moves of the lifecycle |
| FalseNotFound.EveryPurchaseCanBeLookedUp | kalshi-trader/app/src/core/executor.ts:682-756 | From every state of the protocol in which a trade is about to buy, its purchase can come to such a look-up with the request still out, and with a read that lets it buy on the same terms |
| Repurchase.BuysSecond | kalshi-trader/app/src/core/executor.ts:455-487 | From every state in which an attempt closes as a soft skip or an error although an order of it has filled, if some read lets the trade buy, a run that keeps every assumption fills a second order of the trade |
| Safety.TerminalStays | kalshi-trader/app/src/core/executor.ts:251-406 | A step leaves skipped and settled rows as they are and moves a filled row only to its settlement, keeping the fill |
| Safety.TerminalStaysForever | kalshi-trader/app/src/core/settler.ts:98-178 | Over any run, a repeated settler pass included, a skipped or settled trade never changes |
| Safety.LifecycleAndLedger | kalshi-trader/app/src/core/trades.ts:61-129 | In every reachable state the audit trail is a path of the lifecycle that ends in each trade's status, one trade exists per strategy and game, and the bankroll is what the snapshots say, one debit per dry-run fill and one credit per dry-run settlement |
| Ledger.StepAudits | kalshi-trader/app/src/core/trades.ts:61-80 | Each step appends only moves that are edges of the lifecycle and start where the trade stood |
| Ledger.StepConserves | kalshi-trader/app/src/core/trades.ts:109-120 | Any step but a reset moves the bankroll by exactly what it changes the trades' net amounts by |
| Ledger.BankrollConserved | kalshi-trader/app/src/core/trades.ts:109-129 | Between resets, over any run, the bankroll moves by the sum of the dry-run trades' net amounts |
| Ledger.StepKeepsBooks | kalshi-trader/app/src/core/settler.ts:272-312 | Consecutive snapshots differ by their trade's debit or payout, a trade is debited and credited at most once, and credited only after its own debit, whatever mode its attempts ran in |
| Safety.SettledNetIsPnl | kalshi-trader/app/src/core/settler.ts:278-312 | What a settled dry-run trade moved the bankroll by is its realized P&L |
| Safety.SettledByValue | kalshi-trader/app/src/core/settler.ts:278-312 | In every reachable state a settled trade is won if and only if its value is a dollar, lost if and only if it is nothing, else void; its payout is count times value and its P&L that less count times price and fee |
| Outcomes.SkippedForAReason | kalshi-trader/app/src/core/executor.ts:455-487 | In every reachable state a waiting trade shows a soft reason, and a skipped one a hard reason, a missing market or a closed window |
| Outcomes.LiveFillIsReal | kalshi-trader/app/src/core/executor.ts:795-861 | In every reachable state a live fill stands for an order of one of the trade's attempts that filled that many contracts at the exchange, and price, cost and fee are, field by field, what the response or a look-up says of that order |
| Outcomes.AnswerIsSaid | kalshi-trader/app/src/core/executor.ts:120-130 | A Create Order response is a fill exactly if it filled: its count and fee, at its average price or else the limit sent, for count times that price |
| Outcomes.LookupIsSaid | kalshi-trader/app/src/core/executor.ts:133-150 | A looked-up order is a fill exactly if it filled: its count, its cost or else count times its price, its fee or none, and the average price rounded half up |
| Safety.PlacedWithinCash | kalshi-trader/app/src/core/executor.ts:503-568 | When a live order is placed from a balance of at least the minimum stake and at most 100 %, everything pending live orders may still cost, this one included, is within the cash that was read |
| Safety.CostOfOneMore | kalshi-trader/app/src/core/executor.ts:638-645 | The pending live cost after placing an order is the cost of the others plus this order's |
| Safety.OnlyLiveTies | kalshi-trader/app/src/core/executor.ts:638-645 | What pending live orders may cost depends on the pending live attempts alone, the exception aside, each counting its limit times its count |
| Entries.EveryOrderWasLetIn | kalshi-trader/app/src/core/executor.ts:496-568 | Over every run from a fresh database: whenever a request is out or an order exists at the exchange, its live attempt had read an open market, trading, fresh and agreeing feeds and a book whose cheapest offer and depth let it in, the switches in that read said live, and limit and count of the request are what that read allows |
| Entries.EveryVirtualFillWasOffered | kalshi-trader/app/src/core/executor.ts:570-576 | Over every run: every dry-run fill is at the limit of such a read and for no more than was offered at or below it |
| Entries.LiveGoesOn | kalshi-trader/app/src/core/executor.ts:496-568 | A live attempt goes on to its order if and only if it has read the market, every guard holds in the fields of the read, a whole contract it can pay for is on offer and the switches still say live; its terms are those of the guards cut to what is on offer |
| Entries.DryRunGoesOn | kalshi-trader/app/src/core/executor.ts:515-576 | A dry run goes on to its virtual fill if and only if it has read the market and every guard holds; it fills what the stake pays for as far as it is on offer |
| Entries.SwitchesDecide | kalshi-trader/app/src/core/executor.ts:547-550 | Where a live order would go out, the same read with a kill switch turned on meanwhile ends with the trade skipped as paused, with live trading turned off it waits as mode_changed; nothing is sent |
| Rounding.PnlWithinRounding | kalshi-trader/app/src/core/settler.ts:278-282 | In every reachable state the realized P&L of a settled trade is within half a micro-dollar per hundredth of a contract of payout less recorded cost and fee |
| Rounding.PnlAgainstCharge | kalshi-trader/app/src/core/settler.ts:278-282 | In every reachable state the P&L of a settled live trade is, in the fields of its order at the exchange, exactly count times value less count times price less fee for a fill from the response, and within the rounding of value less charge and fee for a looked-up one |
| Rounding.DivRoundIsNearest | kalshi-trader/app/src/core/executor.ts:113-117 | The rounded quotient times the divisor is within half a divisor of the dividend |
| Rounding.LookedUpFillIsRounded | kalshi-trader/app/src/core/executor.ts:140-147 | The average price of a looked-up order is within half a unit of its cost over its count |
| Recovery.RecoveryComplete | kalshi-trader/app/src/core/executor.ts:1039-1097 | If all lookups answer, recovery from any crash state ends with no pending attempt and no signalled or pending trade, every open trade waits with its window ahead, no fill at the exchange is lost, and a second recovery at the same time changes nothing |
| Recovery.RecoveryPossible | kalshi-trader/app/src/core/executor.ts:897-948 | From any crash state there are truthful answers that let recovery run to its end |
| Recovery.RecoverFromList | kalshi-trader/app/src/core/executor.ts:912-941 | Looking up and recording each listed attempt leaves none of them pending and records every fill |
| Resolver.PassResolvesAllDue | kalshi-trader/app/src/core/executor.ts:897-948 | After a resolver pass with nothing in between whose look-ups all answer, the only live attempts still pending are too young or belong to a busy trade |
| Resolver.PassResolvesWhatWasDue | kalshi-trader/app/src/core/executor.ts:897-948 | Whatever other steps come between the look-ups of a pass, if it is not cut off and they all answer, none of the live attempts that were due when it began is pending at its end |
| Trader.Store.TransitionTrade | kalshi-trader/app/src/core/trades.ts:61-80 | Replaces the row and appends the audited move; nothing else changes |
| Trader.Store.UpdateAttemptRow | kalshi-trader/app/src/core/trades.ts:82-104 | Replaces one attempt row and nothing else |
| Trader.Store.AdjustBankrollBy | kalshi-trader/app/src/core/trades.ts:109-120 | Adds the delta and appends the snapshot with the new amount |
| Trader.Store.ResetBankrollTo | kalshi-trader/app/src/core/trades.ts:123-129 | Sets the bankroll, appends a reset snapshot, returns the old amount |
| Trader.Executor.OnSignal | kalshi-trader/app/src/core/executor.ts:262-325 | Performs the machine's signal step: one row per strategy and game, skipped at once without a market, else queued; returns the new trade or none |
| Trader.Executor.OnState | kalshi-trader/app/src/core/executor.ts:330-358 | A tracker update performs exactly the retries and expiries its waiting trades call for, none under the kill switch |
| Trader.OnStateExactly | kalshi-trader/app/src/core/executor.ts:330-358 | An update retries exactly the idle waiting trades of its game whose rule matches for their side, and gives up exactly those whose game is over, out of regulation, or led past the window by a leader the rule would take |
| Trader.Executor.Sweep | kalshi-trader/app/src/core/executor.ts:364-383 | Expires exactly the open, idle trades whose game is over or whose window ended more than the grace period ago, and counts them |
| Trader.SweepExactly | kalshi-trader/app/src/core/executor.ts:364-383 | The sweep expires exactly the idle open trades whose game is over or whose window ended more than thirty minutes ago |
| Trader.Executor.BeginNextAttempt | kalshi-trader/app/src/core/executor.ts:417-494 | The first stretch of an attempt: dropped when the trade is not open, else the pending row and counter, then paused, not configured or reading |
| Trader.Executor.AfterReading | kalshi-trader/app/src/core/executor.ts:497-551 | The guards on what was read, the sizing on bankroll or free cash, and the re-read of the switches before a live order |
| Trader.Executor.PendingLiveCostMicros | kalshi-trader/app/src/core/executor.ts:638-645 | The loop computes the cost of all other pending live attempts |
| Trader.Executor.AfterGroup | kalshi-trader/app/src/core/executor.ts:551-712 | Limit and count are stored and the trade goes pending before the request is sent |
| Trader.Executor.AfterFee | kalshi-trader/app/src/core/executor.ts:570-612 | The virtual fill is one commit: attempt, trade, debit and snapshot |
| Trader.Executor.RecordOutcome | kalshi-trader/app/src/core/executor.ts:795-861 | Applies an outcome to attempt and trade without looking at the trade's status |
| Trader.Executor.AfterCreate | kalshi-trader/app/src/core/executor.ts:723-778 | Each class of answer to Create Order takes its own branch |
| Trader.Executor.AfterLookup | kalshi-trader/app/src/core/executor.ts:752-767 | After an unknown outcome: found is recorded, not found ends the attempt, a failed lookup leaves it pending |
| Trader.Executor.StartResolving | kalshi-trader/app/src/core/executor.ts:897-910 | The list of a resolver pass |
| Resolver.ListedExactly | kalshi-trader/app/src/core/executor.ts:897-910 | The settler's list is exactly the pending live attempts of trades that are not busy, at least thirty seconds old, in row order |
| Resolver.RecoveryListsAll | kalshi-trader/app/src/core/executor.ts:1039-1050 | Recovery's list is every pending live attempt, in row order |
| Trader.Executor.ResolveHead | kalshi-trader/app/src/core/executor.ts:912-941 | One round of a resolver pass, from whatever state the steps since the last one have led to |
| Trader.Executor.Finish | kalshi-trader/app/src/core/executor.ts:455-487 | Attempt row, then trade row, in two commits |
| Endings.SignalAdds | kalshi-trader/app/src/core/executor.ts:262-325 | The first signal of a strategy on a game adds a trade with exactly the signal's fields, queued, or skipped at once without a market; a later one changes nothing |
| Endings.RetryQueues | kalshi-trader/app/src/core/executor.ts:251-260 | A retried trade waits behind those that wait already; nothing else changes |
| Endings.BeginDecides | kalshi-trader/app/src/core/executor.ts:426-494 | An attempt gets the next number, the time and the mode of the switches; a paused strategy ends its trade as paused, missing credentials leave it waiting with an error, otherwise it reads the market |
| Endings.GroupDecides | kalshi-trader/app/src/core/executor.ts:551-567 | With the order group the trade is pending with its terms and the request carries them; without it the attempt ends as an error and nothing is sent |
| Endings.FeeDecides | kalshi-trader/app/src/core/executor.ts:570-612 | A virtual fill is count times limit plus the exact fee, taken out of the bankroll; with a refused fee the trade waits with an error |
| Endings.CreateDecides | kalshi-trader/app/src/core/executor.ts:723-777 | What each answer to Create Order leaves in trade and attempt: a fill at the exchange's average price and fee, or at the limit; nothing bought; an unknown outcome; the group's limit; a refusal; an error |
| Endings.LookupDecides | kalshi-trader/app/src/core/executor.ts:752-767 | What the look-up after a lost answer leaves: the order as the exchange has it, an error where there is none, a pending attempt without an answer |
| Endings.ListedDecides | kalshi-trader/app/src/core/executor.ts:912-941 | What one look-up of recovery or of the settler's pass leaves; where nothing was bought the trade waits exactly if its window is still ahead, for the reason of that look-up |
| Endings.RecoveryDecides | kalshi-trader/app/src/core/executor.ts:1053-1097 | The end of recovery, trade by trade: an unfinished one without a pending live attempt waits if its window is ahead and is skipped as expired if not, keeping its last reason; the rest is untouched |
| Endings.ExpiryDecides | kalshi-trader/app/src/core/executor.ts:396-406 | An expired trade is skipped for the last reason it waited for, or for its window |
| Endings.SettlementDecides | kalshi-trader/app/src/core/settler.ts:272-312 | A filled trade settles as won, lost or void by the value, with payout and P&L from its own fill; a dry run is paid out in the same step; any other trade is left alone |
| Trader.Executor.ResolvePendingLive | kalshi-trader/app/src/core/executor.ts:897-948 | A whole pass with nothing in between: one round per listed attempt, with the given answers |
| Trader.Executor.RecoverOnStart | kalshi-trader/app/src/core/executor.ts:1039-1097 | Lookups of all pending live attempts and then the second stage perform the machine's recovery run |
| Trader.Settler.ReadFilled | kalshi-trader/app/src/core/settler.ts:126-127 | Reads exactly the filled trades, in table order |
| Trader.Settler.SettleOne | kalshi-trader/app/src/core/settler.ts:272-312 | Settles a trade from the row the pass read, only if it is still filled, crediting a dry run's payout in the same commit |
| Trader.Settler.SettleGroup | kalshi-trader/app/src/core/settler.ts:172-174 | One mode's trades of a ticker are settled in the order read, from any state of the process that has read them |
| Trader.Settler.SettleLiveGroup | kalshi-trader/app/src/core/settler.ts:184-232 | Live trades settle when the settlement is listed or has been missing for half an hour, with the reconciliation warning, else the wait is remembered; from any state after the dry-run settlements |
| Trader.WaitEndsExactly | kalshi-trader/app/src/core/settler.ts:200-214 | Without a listed settlement the live trades wait in every pass less than half an hour after the first that missed it, and settle with a warning in the first one after |
| Trader.ListedSettles | kalshi-trader/app/src/core/settler.ts:216-220 | A listed settlement settles them at once, with a warning exactly if it is off by more than a cent |
| Trader.RevenueAdds | kalshi-trader/app/src/core/settler.ts:213-213 | The expected revenue adds up over what was read: each live fill of the ticker counts at the value |
| Trader.GroupExactly | kalshi-trader/app/src/core/settler.ts:168-174 | A group's settlements are exactly those of the ticker's trades in that mode, at the market's value |
| Trader.Settler.SettleTicker | kalshi-trader/app/src/core/settler.ts:168-232 | The two groups of a ticker with nothing in between |
| Trader.TickerExactly | kalshi-trader/app/src/core/settler.ts:168-232 | What one pass settles for a ticker: nothing before the market is settled; every dry run at its value; every live trade with the verdict's warning, unless it is to wait |
| Engine.StrategyEngine.OnState | kalshi-trader/app/src/core/engine.ts:192-280 | The loop over strategies emits and marks exactly what the specification says and keeps the newest 20 signals |
| Engine.NewestAre | kalshi-trader/app/src/core/engine.ts:244-245 | Kept are the newest twenty signals, in order |
| Engine.SignalsExactly | kalshi-trader/app/src/core/engine.ts:213-278 | With distinct strategies an update signals exactly those whose rule matches, on their sport and league, with no kill switch, that are unmarked and have no trade; all that match end up marked |
| Engine.SignalsSay | kalshi-trader/app/src/core/engine.ts:213-278 | Every signal is one strategy's on this game: for the side the rule matches, on that side's market, live if and only if nothing holds live orders back |
| Signalling.OneSignalPerGame | kalshi-trader/app/src/core/engine.ts:159-278 | From a fresh start, over any interleaving of updates with the inserts they cause, steps of the executor, settler, recovery and exchange, crashes and forgotten games, no strategy signals twice on a game, unless a mark is given up whose insert failed |
| Signalling.OneSignalIfInsertsSucceed | kalshi-trader/app/src/core/engine.ts:159-278 | So if no insert fails, no strategy signals twice on a game in any run, without any further condition |
| Signalling.RememberedExactly | kalshi-trader/app/src/core/engine.ts:187-278 | Every call keeps the invariant (no pair signalled twice, each marked or in the trade table) if and only if it gives up no mark whose insert failed and whose pair has no trade |
| Signalling.GivenUpSignalsAgain | kalshi-trader/app/src/core/engine.ts:213-278 | Where such a mark has been given up, the next update on which the strategy triggers signals the pair a second time |
| Signalling.InsertsRecord | kalshi-trader/app/src/core/executor.ts:251-325 | When an update is done, each of its signals whose insert did not fail has its pair in the trade table |
| Signalling.PairsStay | kalshi-trader/app/src/core/executor.ts:251-1097 | No step takes a (strategy, game) pair out of the trade table |
| Signalling.InsertRecords | kalshi-trader/app/src/core/executor.ts:262-325 | Handling a signal leaves its pair in the trade table, whether or not it was there |
| Engine.MarksSuffice | kalshi-trader/app/src/core/engine.ts:213-278 | Without a restart or a forgotten game the in-memory marks alone prevent a second signal |
| Refinement.SimulationRefines | kalshi-trader/app/src/backtest/simulator.ts:182-318 | With settings that the pricing functions take, a table cell for every tick at which the rule matches and a bankroll that stays a safe integer, the backtest returns, and the executor and settler driven in dry run through the same games can run, and end with the same trades in the same order (side, price, count, stake, fee, settlement, won, lost or void as its game's goals decide, P&L or skip reason) and the same bankroll |
| Refinement.GameRefines | kalshi-trader/app/src/backtest/simulator.ts:203-312 | The same for one game and a safe bankroll, including its last soft reason; a missing price is the executor's empty book, a missing market its `no_market` |
| Refinement.EveryBacktestIsLiveRun | kalshi-trader/app/src/backtest/simulator.ts:182-318 | So for every such backtest of games with ids of their own there is a world (open markets, fresh observations, the simulator's price as the only level) in which the live system, from any idle state, makes the same trades |
| Refinement.ReturnedSimulationRefines | kalshi-trader/app/src/backtest/simulator.ts:182-318 | The same refinement for every backtest that returns, whatever its settings |
| Refinement.ThrownTryIsError | kalshi-trader/app/src/core/executor.ts:503-636 | Where a try of the simulator throws for its arguments, the executor's attempt ends as `error` and the trade waits |
| Refinement.TickAgrees | kalshi-trader/app/src/core/executor.ts:330-358 | One live tick (signal or retry, then the attempt to its end) does what one tick of the simulator does |
| Refinement.AttemptAgrees | kalshi-trader/app/src/core/executor.ts:417-612 | One dry-run attempt on the unlimited level rejects, fills and books what one try of the simulator does |
| Refinement.SameEntry | kalshi-trader/app/src/backtest/simulator.ts:246-260 | The guards give one result on the simulator's reduced input and on the executor's full one |
| Refinement.CountFitsLevel | kalshi-trader/app/src/backtest/simulator.ts:250-250 | The unlimited ask level never cuts the requested count |
| Simulator.RunGame | kalshi-trader/app/src/backtest/simulator.ts:203-312 | The minute loop of one game computes the game's specification, exceptions included |
| Simulator.Simulate | kalshi-trader/app/src/backtest/simulator.ts:203-318 | The loop over games computes the fold of the games over the bankroll, and fails as soon as one throws |
| Returns.SimulationThrowsExactly | kalshi-trader/app/src/backtest/simulator.ts:197-318 | A backtest throws if and only if some game throws on the bankroll that the games before it, which return, leave |
| Returns.GameThrowsExactly | kalshi-trader/app/src/backtest/simulator.ts:203-278 | A game throws if and only if at some tick of the window, reached undecided and tried for the first leader, the table has no cell or a pricing function refuses its arguments |
| Returns.TryThrowsExactly | kalshi-trader/app/src/backtest/simulator.ts:220-278 | A try throws if and only if the price table has no cell for it, or `limitPriceBp`, `stakeMicros`, `contractsFor` or `feeMicros` is reached and refuses its arguments |
| Returns.InputsReturn | kalshi-trader/app/src/backtest/simulator.ts:182-318 | From every initial bankroll: with settings that the pricing functions take, a cell for every matching tick, and room for the most the games can win or lose, a backtest returns |
| Returns.OnlyCellsThrow | kalshi-trader/app/src/core/pricing.ts:36-166 | With such settings and a safe bankroll, a try throws if and only if its table cell is missing |
| Returns.BankrollWithin | kalshi-trader/app/src/backtest/simulator.ts:280-293 | With such settings a backtest of n games moves the bankroll by at most n times the swing of one game, up or down |
| Returns.EmptyTableThrows | kalshi-trader/app/src/backtest/simulator.ts:220-229 | A concrete backtest throws for a missing table cell |
| Returns.ZeroPrecisionThrows | kalshi-trader/app/src/core/pricing.ts:49-49 | A concrete backtest throws for a balance precision of zero |
| Simulator.ExactAskIsEarliest | kalshi-trader/app/src/backtest/simulator.ts:148-162 | The exact provider gives the earliest candle of the four minutes from the tick on, marked by whether it is the tick's own |
| Simulator.PriceExactly | kalshi-trader/app/src/backtest/simulator.ts:220-236 | The price at a tick is the earliest candle of the side's own market from its wall minute on, or the table's cell for the lead and the minutes left |
| Simulator.RangesExactly | kalshi-trader/app/src/backtest/simulator.ts:243-254 | With candles the limit is on the grid of the side's own market, with the table on whole cents |
| Simulator.KickoffExactly | kalshi-trader/app/src/backtest/simulator.ts:164-179 | The kick-off prices are the recorded ones, else the candle of each market at the start or in the three minutes after, else unknown |
| Simulator.SettlementMeaning | kalshi-trader/app/src/backtest/simulator.ts:141-145 | The winner's market pays a dollar, the two sides share a dollar except in a soccer draw, and a draw pays both alike |
| Backtest.GameMeaning | kalshi-trader/app/src/backtest/simulator.ts:203-309 | A game has a row exactly when the rule matches on a tick; the row is for the first leader; a fill or hard skip is at the first tick that decides, a soft skip at the last tick tried when none does; a skip has the reason and the price source of the try at its tick and the last price found; a fill carries the guards' limit and count, the exact fee, the value its goals give the market and the P&L at that value |
| Simulator.TicksExactly | kalshi-trader/app/src/backtest/simulator.ts:195-195 | Ticked is every minute of the window in regulation: up to 90 in soccer, up to 59 in hockey |
| Backtest.SkipHasTry | kalshi-trader/app/src/backtest/simulator.ts:297-308 | The reason of a skip is a missing price, the price, the minimum price or a stake below one contract; never `window_expired`, and never liquidity |
| Backtest.BacktestMeaning | kalshi-trader/app/src/backtest/simulator.ts:197-312 | At most one row per game, in game order, for exactly the games on which the rule matches, each from the bankroll the row before left |
| Backtest.BankrollIsInitialPlusPnl | kalshi-trader/app/src/backtest/simulator.ts:280-293 | After every row and at the end the bankroll is the initial one plus the P&L so far |
| Backtest.Composes | kalshi-trader/app/src/backtest/simulator.ts:197-318 | Running two stretches of games is running the second from the bankroll the first leaves |
| Backtest.BankrollFloor | kalshi-trader/app/src/backtest/simulator.ts:246-293 | For percent up to 100 the bankroll never falls below the lower of the initial one and minus (minimum stake plus the fee bound of the maximum stake) |
| Backtest.RawFeeByStake | kalshi-trader/app/src/core/pricing.ts:36-58 | The raw fee of an order is bounded by its cost alone |
| Summary.Summarize | kalshi-trader/app/src/backtest/simulator.ts:370-398 | Running-peak drawdown is the maximum fall from any point of the P&L curve to any later one; each month and the total are exact; skips plus won, lost and void fills are all rows; the sums of invested amounts, prices, fees and decided prices run over the fills; the series has one point per fill with its fall from the highest point so far |
| Summary.AmountsAdd | kalshi-trader/app/src/backtest/simulator.ts:370-398 | P&L, payouts and each month add up over the rows |
| Summary.FigureOfFill | kalshi-trader/app/src/backtest/simulator.ts:370-398 | What one fill counts: its P&L, cost and fee, its price, once more if it was decided, one win, loss or void by its value, for the month of its game |
| Summary.SeriesExactly | kalshi-trader/app/src/backtest/simulator.ts:389-396 | The series has one point for each fill, in order, with its cumulative P&L, its bankroll and its fall from the highest point so far |
| Summary.InvestedIsConsistent | kalshi-trader/app/src/backtest/simulator.ts:382-383 | In a backtest's summary the net P&L is the payouts less the invested amount |
| Summary.SeriesWithinDrawdown | kalshi-trader/app/src/backtest/simulator.ts:393-395 | No point of the drawdown series lies deeper than the maximum drawdown |
| Summary.PointAdded | kalshi-trader/app/src/backtest/simulator.ts:393-394 | Looking back to the highest point is enough to extend peak and drawdown |
| Summary.NetPnlIsBankrollGain | kalshi-trader/app/src/backtest/simulator.ts:314-317 | The summary's net P&L is what the backtest's bankroll gained |
| GameClock.CountScore | kalshi-trader/app/src/backtest/clock.ts:24-33 | The loop counts each side's goals up to the minute |
| GameClock.GoalsAdd | kalshi-trader/app/src/backtest/clock.ts:24-33 | A side's goals up to a minute add up over the list, each counting for its side from its minute on |
| GameClock.TickIsRuleMinute | kalshi-trader/app/src/backtest/clock.ts:36-56 | The derived clock shows the tick's minute, in regular play and unblocked, with the goals scored so far |
| GameClock.TickInsideWindow | kalshi-trader/app/src/core/executor.ts:175-200 | No tick inside the window closes it; only lead, side, opponent goals or underdog can fail there |
| GameClock.WallClockGrows | kalshi-trader/app/src/backtest/clock.ts:67-73 | Later game minutes are read from strictly later candles |
| GameClock.WallMinuteIsFirst | kalshi-trader/app/src/backtest/clock.ts:60-73 | A tick is read from the first wall minute at which the price table's clock model shows its minute |
| GameClock.LastTickIsLast | kalshi-trader/app/src/backtest/clock.ts:18-22 | The ticks end where the clock model's minutes end |
| Pricing.FeeIsLeast | kalshi-trader/app/src/core/pricing.ts:36-58 | The fee exists exactly for well-formed arguments and is the least amount that covers 7 x multiplier x count x price x (10000 - price) billionths and puts the debit on the balance grid |
| Pricing.RawFeeBound | kalshi-trader/app/src/core/pricing.ts:50-56 | The raw fee never exceeds the one at 50 cents |
| Pricing.DebitMonotone | kalshi-trader/app/src/core/pricing.ts:36-58 | A larger order at one price never debits less |
| Pricing.SplitNeverCheaper | kalshi-trader/app/src/core/pricing.ts:36-58 | Splitting a fill into two orders never lowers the total fee |
| Pricing.SnapDown | kalshi-trader/app/src/core/pricing.ts:88-101 | The loop over the ranges computes the snap |
| Pricing.SnapDownGreatest | kalshi-trader/app/src/core/pricing.ts:88-101 | For well-formed ranges the snap is the greatest price of the union of grids at or below the bound, and null exactly when there is none |
| Pricing.SnapRightEverywhere | kalshi-trader/app/src/core/pricing.ts:88-101 | For any list of ranges the snap is right at every bound (on the grid, the greatest at or below, null exactly when there is none) if and only if every inverted range is outbid at its start by a proper one |
| Pricing.SnapRightExactly | kalshi-trader/app/src/core/pricing.ts:88-101 | For any list and any one bound the snap is right if and only if every inverted range that the bound reaches is outbid there |
| Pricing.OutbidIsGridPrice | kalshi-trader/app/src/core/pricing.ts:88-101 | Being outbid is having a grid price between the price the inverted range invents and the bound |
| Pricing.ContractsAreMost | kalshi-trader/app/src/core/pricing.ts:132-140 | The count is the most whole contracts the stake pays for |
| Pricing.StakeWithinBalance | kalshi-trader/app/src/core/pricing.ts:154-166 | Up to 100 % of a positive balance, the stake stays within the balance exactly when one of the clamps does |
| Pricing.StakeIsPercent | kalshi-trader/app/src/core/pricing.ts:154-166 | The stake is the percentage of the balance rounded down, unless a clamp moves it, the upper one winning; nothing is staked from a balance that is not positive |
| Pricing.LinearCentGrid | kalshi-trader/app/src/core/pricing.ts:78-92 | Without price ranges the grid is the whole cents from 1 to 99 |
| Guards.BestAskIsMinimum | kalshi-trader/app/src/core/guards.ts:124-124 | The best ask is the minimum of the book in any order |
| Guards.AcceptIsSound | kalshi-trader/app/src/core/guards.ts:98-164 | An accepted entry satisfies every guard, in the fields of the input; its limit is the greatest allowed price and covers the ask, its depth is what is offered there, its count the most the stake pays for |
| Guards.AcceptIsComplete | kalshi-trader/app/src/core/guards.ts:98-164 | Conversely, whenever the guards hold at the greatest allowed price the entry is accepted with that limit |
| Guards.DepthAdds | kalshi-trader/app/src/core/guards.ts:94-96 | What is offered at or below a price adds up over the levels, in any order |
| Guards.PricesNeverThrow | kalshi-trader/app/src/core/pricing.ts:118-166 | For counts within the safe integers, positive asks and a safe balance no guard throws, whatever the book, the grid and the switches |
| Guards.RejectionClass | kalshi-trader/app/src/core/guards.ts:17-33 | A rejection ends the trade exactly for a pause, a closed market or a stake below one contract |
| Guards.RejectionNamesGuard | kalshi-trader/app/src/core/guards.ts:98-164 | The reason of a rejection names the first guard that fails, in the fields of the input |
| Rule.MatchMeaning | kalshi-trader/app/src/core/engine.ts:56-93 | The rule matches for a side and a minute exactly when the game is in regular play and unblocked, the clock shows that minute (in hockey the whole minutes elapsed), the minute is in the window, and that side strictly leads by enough and meets every limit |
| Rule.ClosedExactly | kalshi-trader/app/src/core/executor.ts:175-200 | The window is closed for good exactly when the game is finished or postponed, out of regulation, or led past the window by a leader the rule would take; a trade whose lead is gone is left waiting |
| Rule.ClosedForGood | kalshi-trader/app/src/core/executor.ts:175-200 | A window closed by the minute never matches at a later one |
| RateLimiter.TokenBucket.TakeAt | kalshi-trader/app/src/feeds/kalshi/rateLimiter.ts:51-63 | A request is taken or queued as specified, and refused exactly above the capacity |
| RateLimiter.IdleGrantsExactly | kalshi-trader/app/src/feeds/kalshi/rateLimiter.ts:36-58 | An idle bucket grants a request at once, with no timer, if and only if what was left plus rate times the time since, up to the capacity, pays for it |
| RateLimiter.CallExactly | kalshi-trader/app/src/feeds/kalshi/rateLimiter.ts:36-82 | Every call: grants and queue are the old queue and the arrival in order; cost granted plus tokens left is what was left plus what flowed in, up to the capacity; with a timer armed nothing is granted; otherwise the next waiter cannot be paid and the timer is set for when it can |
| RateLimiter.IdleBucketServes | kalshi-trader/app/src/feeds/kalshi/rateLimiter.ts:36-58 | After any calls that leave nothing waiting and capacity / rate without a call, any request that fits is granted at once |
| RateLimiter.TokenBucket.DrainAt | kalshi-trader/app/src/feeds/kalshi/rateLimiter.ts:65-82 | The loop serves exactly the longest affordable prefix of the queue and arms the timer for the next head |
| RateLimiter.RateBound | kalshi-trader/app/src/feeds/kalshi/rateLimiter.ts:36-82 | The cost granted in any interval is at most the capacity plus rate times its length |
| RateLimiter.RateBoundFromStart | kalshi-trader/app/src/feeds/kalshi/rateLimiter.ts:29-82 | The same from construction on, after any earlier calls, with a timer armed for every non-empty queue |
| RateLimiter.FirstComeFirstServed | kalshi-trader/app/src/feeds/kalshi/rateLimiter.ts:51-74 | Grants occur in arrival order: what was granted plus what waits is what waited plus what arrived |
| RateLimiter.FiringServesHead | kalshi-trader/app/src/feeds/kalshi/rateLimiter.ts:75-81 | A firing at its deadline serves at least the head and leaves a timer for a non-empty queue |
| RateLimiter.DeadlineIsEarliest | kalshi-trader/app/src/feeds/kalshi/rateLimiter.ts:77-77 | The deadline is the first whole millisecond after now at which the head can be paid |
| RateLimiter.AfterValid | kalshi-trader/app/src/feeds/kalshi/rateLimiter.ts:36-82 | Every call keeps the invariant: tokens within bounds, a non-empty queue has a timer armed |
| FeedMerge.GameTracker.IngestOne | kalshi-trader/app/src/core/tracker.ts:361-450 | An observation that is not cut off performs both commits: it changes exactly its own game, as specified, and emits the merged state; an archived game ignores it |
| FeedMerge.GameTracker.CommitOne | kalshi-trader/app/src/core/tracker.ts:361-434 | The observation up to its first commit: feeds, timer, agreed score and games row as specified, nothing archived |
| FeedMerge.GameTracker.Merge | kalshi-trader/app/src/core/tracker.ts:452-484 | Score, block, timer and agreed score after an observation |
| FeedMerge.GameTracker.Archive | kalshi-trader/app/src/core/tracker.ts:523-563 | The second commit: a game is written to `hist_games`, and marked as archived, only if it has not been |
| FeedMerge.UnblockedWasUnanimous | kalshi-trader/app/src/core/tracker.ts:465-484 | The score of every unblocked merged state was unanimous among the fresh feeds at that or an earlier observation |
| FeedMerge.BlocksExactlyAfter | kalshi-trader/app/src/core/tracker.ts:467-479 | A game becomes blocked exactly at a disagreement more than 20 s after the onset of the one that stands, with no agreement of two or more fresh feeds and no restart in between |
| FeedMerge.UnblocksExactlyAt | kalshi-trader/app/src/core/tracker.ts:467-476 | A block ends exactly at an agreement of two or more fresh feeds |
| FeedMerge.FinishesExactlyWhen | kalshi-trader/app/src/core/tracker.ts:460-461 | A game is finished exactly when a fresh feed says so |
| FeedMerge.RemembersLast | kalshi-trader/app/src/core/tracker.ts:389-391 | What is remembered of a feed is exactly its last observation taken in since the last restart or `forget` |
| FeedMerge.RestartForgets | kalshi-trader/app/src/core/tracker.ts:222-228 | A restart or `forget` leaves no feed, no timer and no agreed score in memory |
| FeedMerge.ShowsExactly | kalshi-trader/app/src/core/tracker.ts:452-521 | Every observation taken in shows phase and clock of the first finished recent feed, else of the league's own in hockey or of the one that knows the minute in soccer, else of the exchange's; its score is the exchange's feed's or the first's, but the last agreed one while the recent feeds disagree; a finish keeps the time of the first |
| FeedMerge.RecentAdds | kalshi-trader/app/src/core/tracker.ts:453-453 | Recent are the observations of the last minute, in the order of the feeds |
| FeedMerge.FinishHolds | kalshi-trader/app/src/core/tracker.ts:411-448 | An archived game is finished and was written exactly once, with its final score, which is the one it shows; another was never written |
| FeedMerge.FinishedForGood | kalshi-trader/app/src/core/tracker.ts:267-290 | As long as observations are only made of games that are polled, no later observation, restart or `forget` changes the row of a finished game, archived or not |
| FeedMerge.UnarchivedExactlyWhenCutOff | kalshi-trader/app/src/core/tracker.ts:417-448 | Over any observations, restarts and cut-off observations: finished and archived differ exactly when the last observation taken in finished the game and a restart fell between its two commits |
| FeedMerge.FrozenExactlyWhenArchived | kalshi-trader/app/src/core/tracker.ts:361-364 | The row of a finished game is safe from every later call if and only if it is archived |
| FeedMerge.ArchivedForGood | kalshi-trader/app/src/core/tracker.ts:361-364 | Once archived, nothing observed later changes the row |
| FeedMerge.NeverArchived | kalshi-trader/app/src/core/tracker.ts:267-290 | A game whose finish was cut off is never archived while observations are only made of games that are polled |
| FeedMerge.FinalIsReported | kalshi-trader/app/src/core/tracker.ts:411-413 | For every finishing observation, of blocked games too: the archived final score is the finished feed's own exactly when the fresh feeds do not disagree, or it is the score that stands in the disagreement (the last agreed one, or without one the primary feed's) |
| FeedMerge.FinalCanBeStale | kalshi-trader/app/src/core/tracker.ts:411-413 | A concrete run that archives 1-0 although the finished feed reports 2-0 |
| Timeline.GoalEvents | kalshi-trader/app/src/core/tracker.ts:157-190 | The loops over snapshots, sides and goals compute the timeline's specification |
| Timeline.TimelineMeaning | kalshi-trader/app/src/core/tracker.ts:177-187 | For non-negative scores the kept events of a side are as many as its score, and the k-th carries the clock of the last snapshot at which the score rose from below k to at least k |
| Timeline.RisesAppend | kalshi-trader/app/src/core/tracker.ts:177-187 | Where no score falls, a snapshot's goals come after all before it, the home side's first |
| Timeline.TimelineFromPlays | kalshi-trader/app/src/backtest/kalshiPbp.ts:129-163 | The play-by-play loop and its consistency check compute the reading |
| Timeline.ConsistencyMeaning | kalshi-trader/app/src/backtest/kalshiPbp.ts:152-162 | A play-by-play is usable exactly when its last score is the score before any shootout play, or one goal more after a shootout; without a shootout it is never rejected and its events add up to the final score |
| Csv.ParseCsv | kalshi-trader/app/src/backtest/csvImporter.ts:45-81 | The character loop and the blank-record filter compute the reader's specification, with the unterminated quote as an error |
| Csv.RoundTrip | kalshi-trader/app/src/web/csv.ts:2-10 | Reading what was written returns exactly header and rows if and only if every record has a field, none is a single blank field, and the text does not start with a byte-order mark |
| Csv.ScanField | kalshi-trader/app/src/backtest/csvImporter.ts:52-76 | A written field, quoted or not, is read back character for character |
| Csv.WrittenIsRead | kalshi-trader/app/src/backtest/csvImporter.ts:45-81 | Without a byte-order mark, what is read is every written record but the blank ones |
| Csv.AnyEndsRead | kalshi-trader/app/src/backtest/csvImporter.ts:45-81 | A text without a byte-order mark whose records end in CR LF, a line feed or a carriage return, in any mixture, the last possibly in nothing, reads as its records but the blank ones |
| Csv.SpacesAre | kalshi-trader/app/src/backtest/csvImporter.ts:79-80 | By code point, the characters whose records are dropped as blank are ECMAScript's white space and line ends |
| Csv.ScanUnquoted | kalshi-trader/app/src/backtest/csvImporter.ts:52-72 | Outside quotes a field is read as it stands, quotes in the middle included |
| Csv.UnclosedIsError | kalshi-trader/app/src/backtest/csvImporter.ts:74-74 | A quote opened in front of a field and never closed is an error, whatever was read before |
| Decimal.ParsedIsExact | kalshi-trader/app/src/core/decimal.ts:20-40 | A string is accepted exactly when it is well formed, has no non-zero digit beyond the scale and denotes a safe integer of units, and the result is that integer |
| Decimal.FormattedIsParsed | kalshi-trader/app/src/core/decimal.ts:42-51 | Every safe integer at every scale reads back from its text |
| Decimal.FormatShape | kalshi-trader/app/src/core/decimal.ts:42-51 | The text has a minus sign exactly for a negative integer, exactly the scale's decimals and no needless zero in front |
| Decimal.FormatIsInjective | kalshi-trader/app/src/core/decimal.ts:42-51 | Two integers never have the same text |

## Left out

- HTTP, request signing, schemas, pagination, feed parsers: only the classes of their answers appear, as arbitrary inputs.
- Database faults and the SQL layer: tables are sequences and a row's id is its position; the attempt row and its counter, and the bankroll reset, are one step each.
- Logs, events, audit detail texts, notifications, server and browser code.
- Fields that no other step reads: order ids, response texts, mode reasons, the stored order book top, cached market rows.
- A strategy version that is missing or does not parse: every trade carries its version.
- Rounding above the safe-integer range: products and sums are exact integers; the range checks of the pricing functions are modelled.
- Floating point: token amounts are thousandths of a token, the fee multiplier is in thousandths, strategy prices are already integer units; ratios and averages of the summary are not modelled.
- The price-model table is a given map from lead and minutes left to an ask; how it is built and bucketed, sample sizes and seeded counts are not modelled.
- Sorting: plays are given in time order, and the summary's lists are not sorted.
- The derived soccer minute, kick-off and second-half times, and replay resets, in the tracker.
- The string-to-clock parsers, time zones, season labels and team names.
- The estimate of a trade's window end: it is part of the signal.
- Trader.Store.UpdateAttemptRow: the `attempt_<status>` audit row is not modelled; the audit trail is that of the trades' moves.
- Trader.Executor.ResolvePendingLive: states a pass with nothing in between; `StartResolving` and `ResolveHead` are its pieces from any state, and `Resolver.PassResolvesWhatWasDue` is proved for every interleaving.
- Trader.Settler.SettleTicker: states a ticker with nothing in between its awaits; `SettleGroup` and `SettleLiveGroup` are its pieces from any state.
- Resolver.PassResolvesAllDue: states a pass with nothing in between; `Resolver.PassResolvesWhatWasDue` allows any steps there.
- Refinement.SimulationRefines: games are driven one after another, as the simulator plays them; that the reads at a tick are calm is assumed at whatever time the tick comes.
- Safety.NoDoubleBuy: assumes (a) to (c); `FalseRefusal`, `FalseNotFound` and `OrphanedAttempt` show what fails without each of them.
- FalseNotFound.SafeExactlyWhenItNeverFills: speaks of the look-up right after the request; a false "not found" in recovery or in the settler's pass is not treated.
- Signalling.OneSignalPerGame: a failed insert leaves the trade table as it was; one that fails after its first write is not modelled.
- FeedMerge.FinishedForGood: the poll list's time windows and leagues are left out; what is assumed of it is that a finished game is not on it.
