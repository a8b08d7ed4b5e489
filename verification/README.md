# Verified models of the trading core

This project models the trading platform's core services in Dafny and proves what every run of them keeps.
A market tick becomes a strategy signal, a risk decision, an order, an execution on the exchange and finally a
booking in a portfolio. Each of those services is a model of its own, and `Pipeline.dfy` puts the last four
together. Three smaller components with bounds of their own stand beside them: auth sessions, the gateway's rate
limiter and the market price feed.

`dafny verify dfyconfig.toml` checks everything.

## How it is organised

| files | what they model |
|---|---|
| `Pipeline.dfy`, `RiskEvaluator.dfy`, `RiskService.dfy` | signal, decision, order, execution, portfolio as message passing with duplicated and reordered delivery; the evaluator's checks; the risk service's maps |
| `PortfolioLedger.dfy`, `PortfolioTheorems.dfy`, `PortfolioService.dfy` | a user's book under fills and price updates: values, theorems over runs, and the objects changed in place |
| `ExecutionLifecycle.dfy`, `ExecutionTheorems.dfy`, `DuplicateClientIDs.dfy`, `ExecutionService.dfy`, `Submitter.dfy` | order consumer, reconciliation loop and repository as interleaved steps; repeated client order IDs; the store of shared records; the retry loop in 64-bit durations |
| `OrderLifecycle.dfy`, `OrderService.dfy` | order lifecycle over runs; one order object shared by two indexes and a cache |
| `Ema.dfy`, `Rsi.dfy`, `Signals.dfy` | the two strategy engines on whole price streams |
| `Dispatch.dfy`, `DispatchService.dfy` | many strategies on one deduplicated event stream |
| `RefreshRotation.dfy`, `Blacklist.dfy`, `AuthService.dfy` | refresh-token rotation at its lock boundaries; the pruned access-token blacklist; the maps in place |
| `RateLimiter.dfy` | the fixed-window limiter, per key and as a whole |
| `PubSub.dfy` | bounded channels, drop on full, under every interleaving |
| `Drawdown.dfy` | one-pass maximum drawdown |

Where the Go code changes objects or maps, the model has a class whose methods do the same and are proved against a
function on values; the theorems are about that function. Modules that interleave use states and steps. `float64` is
modelled as `real`.

Assumptions, stated as preconditions: generated identifiers are new (UUIDs, random tokens), the exchange reports no
negative fill, a clock does not run backwards where the statement says so, and a submission's field assignments and
its repository update happen as one step with respect to the reconciliation loop.

## Where code and documentation disagree

The model follows the code.

- The gateway documentation promises 100 requests a minute per IP and 1000 per user. A fixed window grants up to 199
  and 1999 in some minutes (`RateLimiter.RateBound`, `RateLimiter.RateBoundIsReached`); the documented number holds for
  a minute exactly when it does not begin inside a window with quota left (`RateLimiter.DocumentedLimitHoldsIff`).
- A client order ID is called an idempotency key, but the execution service submits the copy that a repeated one
  yields and writes that copy back: a filled row can be reopened, a fill can be lost, and a submitted row can be moved to
  an exchange ID under which its own fills never arrive. The repetition is harmless exactly when nothing was filled
  meanwhile and the exchange repeats its answer (`DuplicateClientIDs.DuplicateClientIff` and the three runs beside it).
- The documentation lets a strategy signal lead to an order. A signal can be booked exactly when it has a user, a
  strategy, a symbol and a positive quantity and is approved (`Pipeline.SignalIsBookedIff`). The strategy service publishes
  signals without user ID, side and quantity; and nothing stores a portfolio snapshot for the evaluator, which approves
  nothing on the empty one that it is given instead (`Pipeline.NewSnapshotsBookNothing`).

## What else the code does not keep

- A partial close books no profit or loss (`PortfolioTheorems.GainIsBookedIff`, `PortfolioTheorems.PartialCloseLosesGain`),
  and only a fill that closes a position to zero pays its fee (`PortfolioTheorems.FeeIsChargedIff`,
  `PortfolioTheorems.OpeningIsFree`).
- Adds and partial closes leave the portfolio's unrealised PnL stale (`PortfolioTheorems.FreshAfterFillIff`,
  `PortfolioTheorems.SecondBuyLeavesTotalsStale`).
- An order can be Filled for ever with less than its quantity executed, because the fill update overwrites what the
  transition has set (`OrderLifecycle.FilledForeverInFullIff`).
- RSI is 50, not 100, when nothing was lost, so a market that only rises is sold exactly under an upper threshold of
  at most 50 (`Rsi.RisingVerdict`).
- On a portfolio with a negative balance the leverage check refuses no positive exposure and the margin limit is turned
  round, because both checks divide by the balance (`RiskEvaluator.ApprovesIff`, `RiskEvaluator.NegativeBalanceHasNoLeverageLimit`).
- A fill of quantity zero overwrites an order's average price and fees but not its value (`OrderLifecycle.OrderIsItsHistory`).
- With negative balances the one-pass drawdown need not be the pairwise maximum (`Drawdown.PeaksSufficeIff`).

## Model

| member | source | states |
|---|---|---|
| Pipeline.InvariantAlways | internal/application/order/service.go:91-144 | in every reachable state of the composed system every decision, order, row and delivered fill is traced to what caused it, and the execution service's own invariant holds |
| Pipeline.OrdersArePromised | internal/application/order/service.go:167-185 | what the execution model assumes of a new order (positive quantity, a client order ID no stored row has) follows from how orders are made |
| Pipeline.AtMostOnce | internal/application/risk/service.go:74-83 | however messages are duplicated and reordered, a signal ID gets at most one decision, a decision one order, an order one execution row, an execution one published fill |
| Pipeline.RepeatedMessagesChangeNothing | internal/application/order/service.go:91-144 | a second delivery of a signal ID to the risk service, or of an approved decision to the order service, changes nothing, also when the first one failed |
| Pipeline.EveryFillHasItsSignal | internal/application/portfolio/service.go:99-130 | every applied fill was caused by a published, approved signal and carries its user, symbol, side and whole quantity |
| Pipeline.OneFillPerSignal | internal/application/portfolio/service.go:105-118 | two applied fills never come from one signal ID |
| Pipeline.HoldingsAreSignals | internal/application/portfolio/service.go:181-264 | what a user holds of a symbol is the signed sum of approved signals, one per applied fill, with distinct IDs |
| Pipeline.EveryFillIsReported | internal/application/execution/service.go:249-296 | an applied fill carries the fees and the value of the fills that were polled for its execution, and no more quantity than they had |
| Pipeline.SignalIsBookedIff | internal/application/order/validator.go:18-50 | for every evaluator: some run judged by it books a fill caused by a signal exactly when the signal names a user, a strategy and a symbol, asks for a positive quantity and is approved |
| Pipeline.NewSnapshotsBookNothing | internal/infrastructure/risk_policy_repository.go:116-126 | if the evaluator only ever sees new portfolio snapshots, as in the services as wired, no signal is booked in any run, under any policy |
| RiskEvaluator.ApprovableIff | internal/application/risk/evaluator.go:27-86 | some policy approves a signal on a portfolio exactly when the portfolio's balance is not zero |
| RiskEvaluator.ApprovesIff | internal/application/risk/evaluator.go:88-226 | with a positive balance a signal is approved exactly within five limits; with a negative one the limits on leverage and margin are turned round; with none nothing is approved |
| RiskEvaluator.NegativeBalanceHasNoLeverageLimit | internal/application/risk/evaluator.go:114-144 | no limit on the leverage refuses anything on a portfolio whose balance is below zero |
| Pipeline.UnorderableSignalsMakeNoOrder | internal/application/order/service.go:118-137 | where every published signal lacks one of the four, no order is made and no execution filled, in any run |
| Pipeline.EverySignalCanBeBooked | internal/application/execution/service.go:93-296 | every such signal that the evaluator approves has, for every price, a run that books exactly one fill, caused by it, at that price |
| RiskService.Service.ProcessStrategySignal | internal/application/risk/service.go:74-134 | the signal is marked first, the default policy stands in for a missing one, the evaluator judges, the decision is cached even when it is not published, and the rest is the pipeline's Assess step |
| RiskService.OwnPolicyDecides | internal/application/risk/service.go:89-99 | the policy of user and strategy decides, or the default one where there is none, and a decision is published exactly when one of the two exists |
| PortfolioLedger.Run | internal/domain/portfolio.go:123-137 | in every reachable state each position's value and unrealised PnL match side, quantity, average and price, TotalPnL is realised plus unrealised, quantities are positive, and balance moves with realised PnL |
| PortfolioLedger.SumByRemove | internal/domain/portfolio.go:226-237 | a sum over the positions does not depend on the iteration order of the map |
| PortfolioTheorems.NetPosition | internal/application/portfolio/service.go:105-118 | after any deliveries and redeliveries the signed holding is the sum of the signed quantities of first occurrences |
| PortfolioTheorems.StoredIffNotFlat | internal/application/portfolio/service.go:181-264 | no position is stored exactly when that sum is zero, and stored quantities are positive |
| PortfolioTheorems.AverageWithinPriceBand | internal/application/portfolio/service.go:207-213 | the average entry lies within every price band that contains the symbol's applied fills |
| PortfolioTheorems.AccountingIdentity | internal/application/portfolio/service.go:197-264 | the balance of every reachable book: initial balance, cash flow of all fills and cost of the open positions, less fees of exact closes and gains of partial closes |
| PortfolioTheorems.MarkToMarket | internal/domain/portfolio.go:209-237 | realised plus unrealised PnL is the mark-to-market result of the fills, less charged fees, short by the gains of partial closes |
| PortfolioTheorems.MarkToMarketWithoutPartialCloses | internal/application/portfolio/service.go:221-264 | without partial closes the books agree with the mark-to-market result less the fees of exact closes |
| PortfolioTheorems.GainIsBookedIff | internal/application/portfolio/service.go:217-222 | a fill's gain is booked exactly when the fill is not a partial close away from the average entry |
| PortfolioTheorems.PartialCloseLosesGain | internal/application/portfolio/service.go:217-222 | a concrete partial close whose gain of 10 is booked nowhere |
| PortfolioTheorems.FeeIsChargedIff | internal/application/portfolio/service.go:223-256 | a fill's fee is taken from the balance exactly when the fill closes its position to zero or the fee is zero |
| PortfolioTheorems.OpeningIsFree | internal/application/portfolio/service.go:197-205 | after any first fill, whatever its fee, the balance is the initial one |
| PortfolioTheorems.FreshAfterFillIff | internal/domain/portfolio.go:226-237 | an add keeps the portfolio's unrealised PnL right exactly when it trades at the position's current price, a partial close exactly at the price where the rest gains what the whole did, any other fill always |
| PortfolioTheorems.SecondBuyLeavesTotalsStale | internal/application/portfolio/service.go:207-216 | every run of two buys at different prices ends with a wrong unrealised PnL of the portfolio |
| PortfolioTheorems.RepricedMarks | internal/application/portfolio/service.go:317-333 | a price update marks exactly the held symbols that it names at the given prices, keeps every other holding, books nothing and makes the unrealised PnL right |
| PortfolioTheorems.CurrentIsLastPrice | internal/domain/portfolio.go:123-137 | after any run a stored position is marked at the price named by its last applied fill or price update, whichever was later |
| PortfolioTheorems.NoEffectIff | internal/application/portfolio/service.go:181-205 | a fill leaves the book as it was exactly when it has no quantity or is refused |
| PortfolioTheorems.TradesAreCloses | internal/domain/portfolio.go:209-224 | after any run the number of trades is the number of applied fills that closed a position |
| PortfolioService.Service.HandleExecutionFilled | internal/application/portfolio/service.go:99-146 | the objects in the store change exactly as the ledger says, other users' books do not change |
| PortfolioService.Service.UpdatePortfolioPrices | internal/application/portfolio/service.go:317-333 | marks every priced position and makes unrealised PnL the sum over positions, in any map order |
| PortfolioService.Portfolio.RecalculateTotals | internal/domain/portfolio.go:226-237 | the loop over positions computes the order-independent sum |
| ExecutionTheorems.InvariantAlways | internal/application/execution/service.go:93-296 | exact fill accounting, no stale copy in the loop's hands, one execution.filled per filled row, in every reachable state |
| ExecutionTheorems.StepKeepsLifecycle | internal/domain/execution.go:133-181 | no step moves a row outside the transitive closure of CanTransition or lowers its executed quantity |
| ExecutionTheorems.AtMostThreeChanges | internal/domain/execution.go:133-155 | a stored row changes its status at most three times |
| ExecutionTheorems.PartialIsFrozen | internal/application/execution/service.go:261-289 | while a row stays partially filled nothing about it changes over any run: further partial fills are refused until one poll completes the order |
| ExecutionTheorems.OrderIsStored | internal/application/execution/service.go:93-135 | in every run the first delivery of an order stores one row as ordered with nothing executed and starts its submission; later ones change nothing |
| ExecutionTheorems.AnswerIsStored | internal/application/execution/service.go:139-182 | in every run the last answer makes the row submitted under its exchange ID, or failed; nothing else of it and no other row changes |
| ExecutionTheorems.RoundPollsEveryRow | internal/application/execution/service.go:203-246 | in every run a round of the loop polls for every row that was submitted or partially filled when it listed those |
| ExecutionTheorems.PolledFillsAreBooked | internal/application/execution/service.go:249-296 | in every run polled fills are booked at once for a submitted row, and for a partially filled one exactly when they complete the order; value, fees, capped quantity, average and status are those of the list, no other row changes, and the row is published exactly when it became filled |
| ExecutionTheorems.FirstFillsAreBooked | internal/application/execution/service.go:249-289 | in every run the first fills give quantity, value and fees of the row; it is filled exactly when they reach the order and else partially filled |
| ExecutionTheorems.EmptyPollsChangeNothing | internal/application/execution/service.go:226-246 | a poll without fills or of an execution without exchange ID changes no row and publishes nothing |
| ExecutionTheorems.StoredRowAccounts | internal/application/execution/service.go:249-273 | executed is capped at the original, Filled holds exactly when they are equal, average times executed is the value, value and fees are those of the accepted fills |
| ExecutionTheorems.AverageWithin | internal/application/execution/service.go:249-273 | without overshoot the average lies between the lowest and highest fill price |
| ExecutionTheorems.AverageIsMeanIff | internal/application/execution/service.go:261-273 | the average is the volume-weighted mean exactly when the fills do not overshoot or cost nothing |
| ExecutionTheorems.RetryBound | internal/application/execution/service.go:93-173 | at most four exchange calls for an order however often its event is delivered, always with one client order ID |
| ExecutionTheorems.CallsAreCounted | internal/application/execution/submitter.go:36-92 | all exchange calls for an order are those of its one submission |
| DuplicateClientIDs.LagAlways | internal/application/execution/service.go:93-296 | also when client order IDs repeat: in every reachable state the draft being submitted never runs ahead of its row, and the row never ahead of the loop's copy |
| DuplicateClientIDs.DuplicateClientIff | internal/application/execution/service.go:139-182 | in every run, whatever was polled since the draft was taken: the end of a submission changes nothing of its row but the attempts exactly when nothing was filled meanwhile and the exchange repeats itself, accepting a submitted row under its exchange ID or refusing a failed one |
| DuplicateClientIDs.WriteBackKeepsRowIff | internal/application/execution/service.go:139-182 | in every run the write-back keeps the row's identity, transition table, booked fills and exchange ID exactly under the stated condition on the row as it is when the submission ends |
| DuplicateClientIDs.FilledOrderIsReopened | internal/infrastructure/execution_repository.go:25-39 | a run from the initial state in which a filled row goes back to submitted |
| DuplicateClientIDs.FillInFlightIsLost | internal/application/execution/service.go:161-171 | a run from the initial state in which a fill polled during the submission of the copy is lost |
| DuplicateClientIDs.ExchangeIDIsReplaced | internal/application/execution/service.go:161-171 | a run from the initial state without any fill in which a submitted row is moved to another exchange ID |
| ExecutionService.Repository.Create | internal/infrastructure/execution_repository.go:25-39 | a repeated client order ID turns the argument into a copy of the stored row and stores nothing |
| ExecutionService.Repository.ListByStatus | internal/infrastructure/execution_repository.go:108-119 | fresh copies of exactly the rows with that status, each once |
| ExecutionService.Service.HandleOrderCreated | internal/application/execution/service.go:93-135 | the state machine's Deliver step on the heap, and which pointer will be submitted |
| ExecutionService.Service.FinishSubmission | internal/application/execution/service.go:139-182 | the state machine's Finish step, for the stored record as well as for the copy that a repeated client order ID made; a coherent exchange index stays coherent exactly when no other exchange ID leads to that execution |
| ExecutionService.Service.ConsumeOrderCreated | internal/application/execution/service.go:93-182 | the whole handler: a seen order changes nothing; a new one is submitted with one to four calls under its client order ID, and the row of the draft becomes what the last answer makes of it |
| ExecutionService.Service.ApplyFillsTo | internal/application/execution/service.go:249-296 | the state machine's Poll step on any listed copy: a refused transition drops it, an accepted one swaps it in and publishes when filled; a coherent index stays coherent exactly when the copy is dropped or no other exchange ID leads to the execution |
| Submitter.Submitter.Submit | internal/application/execution/submitter.go:36-110 | stops at the first success, makes between 1 and maxRetries + 1 calls with one client order ID, records them and has waited the sum of the pauses |
| Submitter.NoOverflowIff | internal/application/execution/submitter.go:94-107 | no backoff overflows 64 bits exactly when the longest one fits |
| Submitter.TotalPauseClosedForm | internal/application/execution/submitter.go:94-107 | without overflow n + 1 calls have waited base x (2^n - 1) |
| OrderLifecycle.EveryOrderIsSound | internal/application/order/validator.go:86-116 | in every reachable store 0 <= executed <= quantity, fees, average and value are not negative, and Closed is never reached |
| OrderLifecycle.ClientIDsAreUnique | internal/infrastructure/order_repository.go:25-39 | no two stored orders share a client order ID |
| OrderLifecycle.OrderIsItsHistory | internal/application/order/service.go:224-314 | in every run average price and fees of a stored order are those of its last successful fill, the value that of its last positive one, status and reason those of its last change, and the executed quantity is the last reported one unless a transition filled the order |
| OrderLifecycle.FillIsStored | internal/application/order/service.go:241-256 | a successful fill stores the reported quantity, average, fees and status, and the value quantity times average when the quantity is positive |
| OrderLifecycle.SucceedsIff | internal/application/order/validator.go:53-116 | from the calls before it: a cancellation succeeds exactly while nothing but the submission has changed the order, a fill exactly while the order is submitted or partly filled and its numbers are possible |
| OrderLifecycle.Origin | internal/application/order/service.go:156-192 | every stored order carries what one call of the run asked for, under the IDs generated for it |
| OrderLifecycle.LifecycleOfEveryOrder | internal/domain/order.go:92-130 | over any run an order keeps its identity and its status only moves along permitted transitions |
| OrderLifecycle.FinalOrdersNeverChange | internal/domain/order.go:133-140 | an order in a final state is never changed again |
| OrderLifecycle.AtMostThreeChanges | internal/domain/order.go:92-130 | an order changes its status at most three times |
| OrderLifecycle.FilledForeverInFullIff | internal/application/order/service.go:241-250 | a Filled order is fully executed for ever exactly when TransitionOrder filled it or the fill reported the whole quantity |
| OrderLifecycle.FilledCanBeShort | internal/application/order/service.go:241-250 | a concrete run that leaves half of a Filled order unexecuted |
| OrderService.Repository.Create | internal/infrastructure/order_repository.go:25-39 | a taken client order ID copies the stored order; otherwise both maps get the same object and stay coherent exactly when the order ID is new |
| OrderService.Service.CreateOrder | internal/application/order/service.go:156-192 | cache and both indexes hold one and the same object exactly when both generated IDs are new |
| OrderService.Service.GetOrderByClientID | internal/application/order/service.go:200-211 | the cache-first lookup returns the very object that both indexes hold |
| OrderService.Service.UpdateOrderFill | internal/application/order/service.go:224-260 | changes the shared object in place as the lifecycle says, or nothing at all |
| OrderService.Service.CancelOrder | internal/application/order/service.go:263-290 | cancels in place and publishes, or changes nothing |
| OrderService.Service.TransitionOrder | internal/application/order/service.go:293-314 | moves in place, or changes nothing |
| OrderService.Service.HandleDecision | internal/application/order/service.go:91-144 | an approved decision makes and publishes at most one order, and is marked before it is validated |
| Ema.SignalsAreCrossings | internal/application/strategy/ema_strategy.go:42-67 | Buy and Sell occur exactly where fast minus slow leaves one side of zero |
| Ema.AveragesWithin | internal/application/strategy/ema_strategy.go:50-52 | both averages stay within the prices seen |
| Ema.RisingNeverSells | internal/application/strategy/ema_strategy.go:50-67 | a nondecreasing stream is never sold |
| Ema.RisingBuysOnce | internal/application/strategy/ema_strategy.go:50-67 | a strictly increasing stream is bought exactly once, on the second price |
| Ema.FallingNeverBuys | internal/application/strategy/ema_strategy.go:50-67 | a nonincreasing stream is never bought |
| Ema.BuysAreSeparated | internal/application/strategy/ema_strategy.go:57-67 | between two Buys lies a Sell or an evaluation with equal averages |
| Ema.UnitsDoNotMatter | internal/application/strategy/ema_strategy.go:39-67 | p to a p + b keeps all actions for a > 0 and swaps Buy and Sell for a < 0 |
| Ema.MeanAge | internal/application/strategy/ema_strategy.go:39-40 | the weight is the one that gives the average the mean age of the last n prices |
| Ema.MissingPeriodsHaveDefaults | internal/application/strategy/ema_strategy.go:86-105 | missing periods are 12 and 26 |
| Ema.Evaluate | internal/application/strategy/ema_strategy.go:25-84 | advances the given state in place, returns an equal fresh copy, and leaves it alone on a configuration error |
| Rsi.IndexWithinRange | internal/application/strategy/rsi_strategy.go:75-92 | the index lies in [0, 100) |
| Rsi.RisingVerdict | internal/application/strategy/rsi_strategy.go:72-92 | on a nondecreasing stream the index stays 50, and which of Sell, Buy and Hold follows depends on the thresholds alone, exactly as stated |
| Rsi.FallingVerdict | internal/application/strategy/rsi_strategy.go:70-92 | on a strictly decreasing stream the index is 0 from the third price on, and which of Sell, Buy and Hold follows depends on the thresholds alone, exactly as stated |
| Rsi.UnitsDoNotMatter | internal/application/strategy/rsi_strategy.go:39-92 | p to a p + b with a > 0 keeps index and action at every position |
| Rsi.SmoothedMoves | internal/application/strategy/rsi_strategy.go:71-73 | each new gain or loss moves its average by one period-th of the distance |
| Rsi.IndexIsShare | internal/application/strategy/rsi_strategy.go:75-78 | once something was lost the index is the gains' share of all moves in per cent |
| Rsi.MissingSettingsHaveDefaults | internal/application/strategy/rsi_strategy.go:29-37 | missing settings are 14, 70 and 30, and so is a period that is not positive |
| Rsi.Evaluate | internal/application/strategy/rsi_strategy.go:24-107 | advances the given state in place and returns that very state |
| Dispatch.Independence | internal/application/strategy/service.go:101-165 | after any run of creations, toggles and duplicated events each strategy's state and emitted actions are those of its engine alone on its own first-seen prices while active |
| Dispatch.KeysAreDistinct | internal/application/strategy/service.go:133-139 | two strategies never share a runtime-state key |
| Dispatch.IdsAreDistinct | internal/infrastructure/repository/strategy_repository.go:32-33 | numbered IDs never collide |
| Dispatch.SeenAreDelivered | internal/application/strategy/service.go:106-112 | the seen-set is exactly the set of delivered event IDs, also of events that failed to decode |
| Dispatch.RisingMarketBuysOnce | internal/application/strategy/service.go:124-162 | an EMA strategy among any others that has only seen rising prices has emitted exactly one Buy |
| Dispatch.EmitsWhatItsEngineSays | internal/application/strategy/service.go:133-162 | after any run the actions a strategy emitted are the signals of its EMA or RSI engine on its own whole price stream, and the state it holds is the engine's after that stream |
| Dispatch.FallingMarketBuysEveryPrice | internal/application/strategy/service.go:124-162 | an RSI strategy among any others that has only seen falling prices has bought on every price from the third on, for thresholds from 0 |
| Dispatch.RefusedConfigurationIsSilent | internal/application/strategy/service.go:127-143 | a strategy without an engine or with a configuration that its engine refuses never emits anything |
| Dispatch.SignalsAreTraced | internal/application/strategy/service.go:144-162 | every emitted signal is a Buy or Sell of a stored strategy in its own symbol and carries the ID of a first-seen price event of that symbol |
| Dispatch.StrategiesAreAsSet | internal/infrastructure/repository/strategy_repository.go:27-102 | after any run the strategies are those created, in their numbering, with symbol and type as created and active as created or last toggled |
| DispatchService.Service.HandleMarketPriceUpdated | internal/application/strategy/service.go:101-165 | the loop over the active strategies has the effect of the specified round, for some listing of the active ones |
| DispatchService.Repository.ListActive | internal/infrastructure/repository/strategy_repository.go:57-81 | every active strategy exactly once |
| RefreshRotation.NoTokenIsRedeemedTwice | internal/application/auth/service.go:142-166 | in every interleaving no refresh token is redeemed twice |
| RefreshRotation.RevokedStaysRevoked | internal/application/auth/service.go:142-166 | a revoked refresh token stays revoked |
| RefreshRotation.StaysRevokedIff | internal/application/auth/service.go:231-259 | also when random tokens repeat: over any stretch of any run a revoked token stays revoked exactly when no token pair minted in it repeats that token |
| RefreshRotation.LiveSessionsAreBounded | internal/application/auth/service.go:142-259 | unrevoked sessions plus rotations in flight never exceed logins plus registrations |
| RefreshRotation.RedeemedIff | internal/application/auth/service.go:142-166 | a refresh starts a rotation and redeems its token exactly when the token is live and not expired; afterwards the token is live no longer and all others are as they were |
| RefreshRotation.FirstPresentationRedeemsIff | internal/application/auth/service.go:142-166 | in every run a minted token is redeemed at its first presentation exactly when that is no later than the expiry it was minted with, and the rotation keeps its identity |
| RefreshRotation.LoginMakesSession | internal/application/auth/service.go:231-259 | a login or registration leads to a live session of its identity with the expiry of its token |
| RefreshRotation.RotationReplacesSession | internal/application/auth/service.go:142-259 | a rotation that goes through replaces the session by a live one of the same identity and login |
| Blacklist.PruningIsInvisible | internal/application/auth/service.go:181-229 | with a clock that does not run backwards every validation answers as with a blacklist that is never pruned |
| Blacklist.PrunedOnlyExpired | internal/application/auth/service.go:268-274 | the pruned list is the full list without tokens that have expired |
| Blacklist.RefreshPrunes | internal/application/auth/service.go:142-150 | a refresh leaves exactly those logged-out tokens on the blacklist that have not expired |
| Blacklist.LogoutIsFinal | internal/application/auth/service.go:168-193 | a validation that takes the lock after a logout never accepts that token |
| Blacklist.AcceptedIff | internal/application/auth/service.go:181-229 | a validation accepts a token exactly when its signature is valid, it has not expired and nobody has logged out with it |
| AuthService.Service.PruneRevokedLocked | internal/application/auth/service.go:268-274 | the deletion loop removes exactly the expired tokens, in any map order |
| AuthService.Service.RefreshLocked | internal/application/auth/service.go:142-166 | verdict and session map of the locked part of Refresh |
| AuthService.Service.ValidateAccessToken | internal/application/auth/service.go:181-193 | answer and blacklist of a validation |
| RateLimiter.RateBound | internal/transport/http.go:69-87 | with a nondecreasing clock any half-open minute grants a key at most 2 x limit - 1 requests |
| RateLimiter.RateBoundIsReached | internal/transport/http.go:69-87 | a schedule that is granted exactly that many |
| RateLimiter.RefusedHadItsLimit | internal/transport/http.go:69-87 | a key is refused only when its whole limit was granted within the last minute |
| RateLimiter.DocumentedLimitHoldsIff | internal/transport/http.go:69-87 | whatever requests follow, the minute from a given time on is granted at most the documented limit exactly when it does not begin inside a window with quota left |
| RateLimiter.WorstMinute | internal/transport/http.go:69-87 | otherwise at most limit plus what is left of that window |
| RateLimiter.WorstIsReached | internal/transport/http.go:69-87 | from every state of the bucket some continuation is granted exactly that bound |
| RateLimiter.IpRate | internal/transport/http.go:54-67 | at most 199 requests of an IP pass in any half-open minute |
| RateLimiter.UserRate | internal/transport/http.go:54-67 | at most 1999 requests of a user pass in any half-open minute |
| RateLimiter.RefusedIpHadItsHundred | internal/transport/http.go:54-67 | the IP bucket refuses only when it let a hundred requests of that IP through within the last minute |
| RateLimiter.RefusedUserHadItsThousand | internal/transport/http.go:54-67 | the user bucket refuses only when a thousand requests of that user were allowed within the last minute; those refused for their IP do not count |
| RateLimiter.IpVerdictIsItsOwn | internal/transport/http.go:54-67 | other IPs and all users never change an IP bucket's answers |
| RateLimiter.Limiter.Allow | internal/transport/http.go:54-67 | the two stores in place give the verdict that the history of requests determines |
| PubSub.NeverPanics | internal/application/market/service.go:114-175 | in every interleaving nothing is sent to a closed channel and none is closed twice |
| PubSub.DeliveredInOrder | internal/application/market/service.go:165-175 | in every interleaving, overlapping broadcasts included: what was received plus what waits is exactly the offers that found room, each a broadcast of the subscription offered once, lost only when 64 waited |
| PubSub.DeliveredInBroadcastOrder | internal/application/market/service.go:137-175 | with the single polling loop a subscriber gets the broadcasts begun since it subscribed in their order, missing exactly those that met 64 waiting |
| PubSub.EveryBroadcastIsOffered | internal/application/market/service.go:165-175 | once no broadcast is under way every broadcast begun during the subscription was offered |
| PubSub.NothingIsLost | internal/application/market/service.go:137-175 | with the single polling loop a subscriber that was never full got every price of its subscription in order |
| PubSub.UnsubscribeIsFinal | internal/application/market/service.go:123-132 | unsubscribing closes the channel for good: whatever follows, it is offered nothing more |
| PubSub.Service.Broadcast | internal/application/market/service.go:165-175 | each subscriber is offered the price once, in any map order |
| PubSub.Service.Unsubscribe | internal/application/market/service.go:123-132 | closes and removes that subscription only; a second call does nothing |
| Drawdown.CalculateMaxDrawdown | internal/application/portfolio/calculator.go:73-92 | on every list where it does not divide by zero, the deepest fall below the running peak; for balances that are not negative, the maximum over all pairs |
| Drawdown.PeaksSufficeIff | internal/application/portfolio/calculator.go:73-92 | from a positive first balance on, the result is the maximum over all pairs exactly when every fall from the smallest positive balance so far to a negative one stays within some fall from a peak |
| Drawdown.DrawdownRange | internal/application/portfolio/calculator.go:73-92 | the result lies in [0, 1], is 1 exactly when a balance is zero and 0 exactly when none falls below the peak |
| Drawdown.NegativeBalancesCanDiffer | internal/application/portfolio/calculator.go:73-92 | one list with a negative balance on which the one-pass result is 2 and the pairwise maximum 3 |

## Left out

- Kafka, HTTP, WebSocket, Postgres, Binance calls, configuration and logging: only "a message may be handled again and
  in any order" and "the exchange gives any answer" remain of them.
- JSON: events are already decoded. The portfolio service's event type has no JSON tags while the producer writes
  snake case; no claim is made about the wire.
- bcrypt, JWT signing, encryption, UUID and token generation: opaque, assumed fresh or correct where a statement says so.
- Floating-point rounding, NaN and infinities: `real` arithmetic, with preconditions where the code divides.
- Time stamps of orders, executions and positions, trace and correlation identifiers of executions, signal metadata.
- Signal IDs are made from a nanosecond clock and may collide; the statements are per signal ID.
- Crash and restart: the seen-sets live in memory, as in the source.
- Manual order creation over HTTP, which publishes no event.
- Portfolio updates of one user by fills and by prices at the same time: the source does not lock the portfolio, the
  model handles one event after the other.
- Overlap of a submission's field assignments with the reconciliation loop: at that grain the late update can
  overwrite a fill.
- Reasons and detailed results of the risk checks, the risk policy store, the market cache's expiry, user management, key masking.
- Trade history, win rate, margin fields and margin or liquidation formulas, Sharpe ratio.
- Normalisation and validation of a strategy's name and symbol on creation; strategies of an unknown type are allowed
  in the model and skipped.
- Deleting orders and listing them by user, strategy or status; no service calls the deletion.
- PortfolioService.Service.HandleExecutionFilled: requires that adding to a position does not divide by zero, which
  PortfolioLedger.HandleIsDefined shows for every run of fills that are not negative.
- Drawdown.CalculateMaxDrawdown: requires that no running peak is zero, because the code divides by it and `real` has
  no infinities.
- PubSub.DeliveredInOrder: the order is that of the offers; it is broadcast order when broadcasts do not overlap, as
  PubSub.DeliveredInBroadcastOrder shows for the single polling loop.
