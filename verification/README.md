# A verified model of the settlement platform

The platform keeps its state in database tables. Users deposit funds and open intents that lock them; solvers bid; an
auction splits an order into fills; settlement moves balances between buyer, seller, platform and solver and writes
ledger rows; events that trigger settlement are delivered at least once. Beside that core run a cross-chain settlement
worker, the Wormhole codecs it relies on, a circuit breaker for external calls, a TWAP scheduler, per-user risk limits
and solver position accounting.

## How it is put together

| files | content |
|---|---|
| `Prelude.dfy` | options, minimum, absolute value and truncating division |
| `Sums.dfy` | sums of a weight over the rows of a table, and the law that changing one row changes the sum by the difference |
| `Auction.dfy` | ranking, limit filter, partial fills, best bid |
| `Accounting.dfy`, `Exchange.dfy` | balance and ledger rows; what each service call does to the tables, as a function of the tables |
| `Service.dfy` | the services as a class whose methods update rows statement by statement, each proved equal to its function in `Exchange` on wrapped 64-bit values |
| `Runs.dfy`, `Conservation.dfy`, `Locks.dfy`, `ExactlyOnce.dfy`, `Range.dfy`, `Machine64.dfy` | arbitrary finite sequences of calls and what holds after all of them |
| `Effects.dfy`, `AuctionEffects.dfy`, `Finality.dfy` | what each call does to rows and fields, said of the tables and the submitted bids alone; what has settled stays settled |
| `LockLimits.dfy`, `LockWitnesses.dfy` | exactly when lock accounting survives a call whose contract is dropped, and two runs in which it does not |
| `Driver.dfy` | executes a sequence of calls on the class and carries the run theorems over to its fields |
| `Bytes.dfy`, `Base64.dfy`, `Vaa.dfy`, `MessageIds.dfy`, `Calldata.dfy` | codecs of the bridge |
| `Legs.dfy`, `LegSafety.dfy`, `LegAnswers.dfy` | two-leg cross-chain settlements, their worker, and what it makes of each answer of the bridge |
| `CircuitBreaker.dfy`, `Twap.dfy`, `Risk.dfy`, `Positions.dfy` | one component each |

Each core transaction is a function from tables to tables parameterised by a `Width`: `Exact` sums are unbounded,
`Bits64` sums wrap like an `i64`, and a statement that does its arithmetic in SQL fails instead of wrapping. The run
theorems are proved of `Exact`; `Machine64.MachineRunsExactly` shows that, while the net deposits of every asset fit in
an `i64`, the `Bits64` run is the same run; `Driver.PerformSound` states the result for the fields of the class. The
run properties hold for any interleaving of calls on any accounts, with buyer, seller, solver and platform allowed to
coincide except where a row says otherwise.

The methods of the class are proved equal to the functions of `Exchange`; what those functions do is said without them by
`Effects.SettleFillEffect`, `Effects.SettleTradeEffect`, `Effects.AmendEffect`, `AuctionEffects.CloseEffect` and the other
lemmas of those two modules, in terms of rows before and after, submitted bids and the rate.

What the calls ask of their callers, and the source does not enforce, is written down as contracts in `Locks.dfy`
(`Contract`), `Conservation.dfy` (`Sound`), `Range.dfy` (`RangeContract`) and `Machine64.dfy` (`Distinct`).

- Lock accounting without its contracts. For a single call on a state that keeps accounting, `LockLimits` says exactly
  when it still does afterwards: amounts that do not survive the cast (`CreateKeptIff`, `AmendCastIff`), an auction begun
  on a closed or released intent and then amended or expired (`AmendKeptIff`, `AmendReleasedIff`, `ReopenedExpireIff`),
  a repeated or late close (`CloseKeptIff`, `LateCloseFillsIff`), a second release or one with fills (`ReleaseKeptIff`),
  an expiry that finds the wrong account or none (`ExpireMatchIff`), another account's row (`ForeignReleaseIff`,
  `ForeignAmendIff`), a settlement that charges the wrong account or asset or a released intent (`SettleMatchIff`), and
  the lock calls of the balance service (`LockCallBreaks`). Accounting has two halves there: the lock equation itself,
  and that the unsettled fills of the intent can all be unlocked while the other orders still find their locks
  (`Covered`, spelled out by `CoveredMeans`). `LockWitnesses` runs two of the failures to the end.
- Money without its contracts. `ConservationLaw` and `LedgerLaw` hold of every run of any calls and name what each
  self-transfer, negative fee, transfer and solver fee contributes; `TransferConservesIff` and `FillConservesIff` give
  the condition for one call.
- Status without its contract. An event that names another intent than its fill's own is `MisdirectedEventIff`; a restart
  of execution needs no contract, and `RedeliveryRepairs` says what it does.
- Other exact conditions: `SettleCommitsIff`, `SelfSwapIff`, `DayLimitIff`, `SlicesSumIff`, `ReducingExactIff`,
  `WormholeRoundTripIff`.

Where code and prose disagree the code is followed:

- `compute_balance` counts DEBIT up and CREDIT down (src/ledger/repository.rs:66).
- `settle_fill` credits the solver fee to the solver's balance but posts it to the platform's ledger account
  (src/settlement/engine.rs:185, 202), and `transfer` posts its two rows with the signs of the opposite movement
  (src/balances/service.rs:182). How far balances and ledger of any set of accounts are apart is `LedgerLaw`; they
  agree for every set that holds all of these `linked` accounts or none.
- The circuit breaker's header promises one probe in HalfOpen; the code lets every caller through.
- `message_id` is undone by `parse_message_id` only for emitters without a slash.

## Model

| member | source | states |
|---|---|---|
| `Auction.SortBids` | src/engine/auction_engine.rs:180-188 | sorting loses and invents no bid: the result is a permutation of the submitted bids |
| `Auction.SortRanked` | src/engine/auction_engine.rs:180-188 | bids come out by net value descending, earlier timestamp first |
| `Auction.SortStable` | src/engine/auction_engine.rs:180-188 | bids that tie on both keys keep their submission order |
| `Auction.FilterIsPrefix` | src/engine/auction_engine.rs:194-216 | on a ranked list the limit filter keeps a prefix, made of exactly the bids at or above the limit |
| `Auction.GeneratePartialFills` | src/engine/auction_engine.rs:219-247 | the loop over sorted bids yields the greedy list of fills that the lemmas below speak of |
| `Auction.FillsSum` | src/engine/auction_engine.rs:219-247 | fills add up to the smaller of the order and the sum of positive nets |
| `Auction.FillsWhole` | src/engine/auction_engine.rs:219-247 | fills are positive and all but the last use their bid's whole net value |
| `Auction.FillsFollowRank` | src/engine/auction_engine.rs:219-247 | on a ranked list fill j comes from bid j, so no unused bid ranks above a used one |
| `Auction.GreedyFewestSolvers` | src/engine/auction_engine.rs:219-247 | no subset of the bids that covers the order has fewer members than the fills |
| `Auction.MatchedIsBest` | src/engine/auction_engine.rs:117-174 | whenever there are fills, the bid published as matched is the head of the sorted list, limit filter or not |
| `Auction.GetBestBid` | src/services/bid_service.rs:101-108 | the fold that keeps the later of equal maxima, none for no bids |
| `Auction.BestBidHeadsOrderbook` | src/services/bid_service.rs:101-118 | the best bid and the head of the order book agree on net value and timestamp |
| `Auction.BestBidIsLastBest` | src/services/bid_service.rs:101-108 | the best bid is at least as good as every bid and strictly better than every bid submitted after it |
| `Accounting.ComputeBalance` | src/ledger/repository.rs:59-75 | the signed sum of one account and asset is the total the run theorems use |
| `Service.FindOrCreate` | src/settlement/engine.rs:411-428 | a missing row reads as zeros and is inserted |
| `Service.CreditBalance` | src/settlement/engine.rs:442-451 | read, add with i64 wrap-around, write back |
| `Service.DebitBalance` | src/settlement/engine.rs:430-440 | fails on insufficient available funds, else subtracts |
| `Service.MoveFill` | src/settlement/engine.rs:156-186 | the six balance statements of a fill in order, stopping at the first failure |
| `Service.PostSwapRows` | src/settlement/engine.rs:188-196 | the four TRADE rows of a settlement and their signs |
| `Service.SettledTotal` | src/settlement/engine.rs:301-311 | the two aggregates over fills: settled quantity and whether there are any |
| `Service.Store.DepositFunds` | src/balances/service.rs:66-87 | new balances and ledger, or InvalidAmount with nothing changed |
| `Service.Store.WithdrawFunds` | src/balances/service.rs:89-112 | withdraws or reports why not; a failed check may leave an empty row behind |
| `Service.Store.LockFunds` | src/balances/service.rs:114-133 | moves available to locked |
| `Service.Store.UnlockFunds` | src/balances/service.rs:135-154 | moves locked to available |
| `Service.Store.TransferFunds` | src/balances/service.rs:156-186 | both rows are read before either is written, then two ledger rows |
| `Service.Store.Create` | src/services/intent_service.rs:85-167 | u64 to i64 cast, risk answer, balance check, lock and insert in one transaction |
| `Service.Store.Amend` | src/services/intent_service.rs:325-457 | status guard, wrapping difference, lock or unlock it, reset to Open; any failure leaves the tables as they were |
| `Service.Store.Release` | src/services/intent_service.rs:216-306 | cancel and fail give the whole amount back without looking at the status |
| `Service.Store.Expire` | src/workers/intent_expiry.rs:73-130 | marks an open intent expired and unlocks it if the locked balance covers it |
| `Service.Store.Close` | src/engine/auction_engine.rs:107-155 | sort, filter, generate and insert fills, set the status; no accepted bid means Failed and no fill |
| `Service.Store.Submit` | src/services/bid_service.rs:52-90 | appends the bid, or IntentNotFound, or RiskRejected on the answer of the bid validation |
| `Service.Store.Begin` | src/engine/auction_engine.rs:81-89 | sets Bidding without looking at the status |
| `Service.Store.Execute` | src/engine/execution_engine.rs:89-114 | sets Executing when there are fills |
| `Service.Store.NewTrade` | src/settlement/engine.rs:71-102 | inserts a pending trade under a fresh id |
| `Service.Store.Settle` | src/settlement/engine.rs:115-211 | the whole fill transaction; when any statement fails every table is unchanged |
| `Service.Store.SettleOneTrade` | src/settlement/engine.rs:326-369 | the whole trade transaction; when any statement fails every table is unchanged |
| `Service.Store.SettleAll` | src/settlement/engine.rs:261-320 | one transaction per fill, a failing fill does not stop the others, then the computed status |
| `Service.Store.OnExecutionCompleted` | src/settlement/worker.rs:78-189 | one delivery: settle, treat AlreadySettled as success, update the status; other failures change nothing |
| `Effects.DepositEffect` | src/balances/service.rs:66-87 | when it commits, the one row that grows, the ledger row written, nothing else |
| `Effects.WithdrawEffect` | src/balances/service.rs:89-112 | the same for a withdrawal; a refused one leaves every amount as it was |
| `Effects.LockEffect` | src/balances/service.rs:114-133 | the amount leaves available for locked in one row |
| `Effects.UnlockEffect` | src/balances/service.rs:135-154 | and comes back |
| `Effects.TransferEffect` | src/balances/service.rs:156-186 | the two rows and the two ledger rows; to oneself nothing leaves |
| `Effects.CreateEffect` | src/services/intent_service.rs:85-167 | which refusal is given when and when it commits; the intent's every field, amounts as cast, and the move between the owner's columns |
| `Effects.AmendEffect` | src/services/intent_service.rs:325-457 | a committed amendment stores each field given, keeps each field not given and the intent's tokens and order type, opens it, moves the difference and touches no other intent; which refusal is given when |
| `Effects.AmendCommitsIff` | src/services/intent_service.rs:325-457 | it commits exactly on an open or bidding intent whose owner can lock what is asked for on top |
| `Effects.ReleaseEffect` | src/services/intent_service.rs:216-306 | status written and whole amount moved back, for every known intent |
| `Effects.ExpireEffect` | src/workers/intent_expiry.rs:73-130 | on open and bidding intents only; pays back only what the found account has locked |
| `Effects.AuctionCallEffect` | src/services/bid_service.rs:52-90 | bids queue up in order; beginning and executing write one status |
| `Effects.SettleFillEffect` | src/settlement/engine.rs:115-211 | a committed fill under every aliasing: each row's change with the fee cut off from quantity times rate and three tenths of it for the solver's account, or the platform's without one; the ledger rows; the mark |
| `Effects.SettleRefused` | src/settlement/engine.rs:129-138 | which refusal is given when, and that it changes nothing |
| `Effects.SettleTradeEffect` | src/settlement/engine.rs:326-369 | a committed trade: each row's change, the six ledger rows and the mark |
| `Effects.TradeCommitsIff` | src/settlement/engine.rs:326-369 | it commits exactly when the buyer can pay and the seller, after what he got, can deliver |
| `Effects.NewTradeEffect` | src/settlement/engine.rs:71-102 | one pending trade under a fresh id |
| `Effects.OneAfterTheOther` | src/settlement/engine.rs:261-286 | the listed fills are settled in order, each on what the ones before it left |
| `Effects.DeliveryEffect` | src/settlement/worker.rs:78-189 | which deliveries do nothing, which settle, and the status written afterwards |
| `AuctionEffects.CloseEffect` | src/engine/auction_engine.rs:107-155 | the new fills are those of submitted bids that pass the limit, with solver, price and worth, best first; no bid left over is above one used; they sum to the smaller of order and offer; status by that sum and by whether any bid passed |
| `AuctionEffects.StepKeepsTerms` | src/services/intent_service.rs:325-457 | no call but an amendment of it changes an intent's terms |
| `AuctionEffects.AmendedLimitHonoured` | src/engine/auction_engine.rs:194-216 | after a limit order is amended, and any calls that do not amend it again, every fill of its next close is worth at least the new limit |
| `Conservation.SwapHeld` | src/settlement/engine.rs:159-168 | effect of the swap on the holdings of any set of accounts, under any aliasing |
| `Conservation.ChargeAndPayHeld` | src/settlement/engine.rs:156-186 | effect of a fill's balance statements on the holdings of any set of accounts |
| `Conservation.FillPosted` | src/settlement/engine.rs:188-204 | effect of a fill's ledger rows; the solver fee appears under the platform |
| `Conservation.TradeHeld` | src/settlement/engine.rs:339-350 | effect of a trade on the holdings of any set of accounts |
| `Conservation.TradePosted` | src/settlement/engine.rs:352-363 | effect of a trade's ledger rows on the same set |
| `Conservation.FeeSplit` | src/settlement/engine.rs:145-149 | for a rate in [0, 1] the fee lies between zero and the amount |
| `Conservation.FillConservesIff` | src/settlement/engine.rs:125-211 | a committed fill keeps every asset's total exactly when its quantity times the rate is above minus one |
| `Conservation.TransferConservesIff` | src/balances/service.rs:156-186 | a committed transfer keeps every asset's total exactly when it has two parties; to oneself it makes its amount |
| `Conservation.LedgerLaw` | src/ledger/repository.rs:59-75 | for every run of any calls, every set of accounts and every asset: balances less ledger is the sum of what transfers and solver fees contributed across the boundary of the set |
| `Conservation.LedgerAgreement` | src/ledger/repository.rs:59-75 | after every run, ledger and balances agree per asset for every set of accounts that holds all linked accounts or none; in particular for all accounts and for the linked ones together |
| `Conservation.LedgerOfOneAccount` | src/ledger/repository.rs:59-75 | after every run `compute_balance` equals available plus locked for each account that is not linked |
| `Conservation.ConservationLaw` | src/settlement/engine.rs:125-211 | for every run of any calls: the balances of all accounts are the net deposits and what self-transfers and negative fees minted, per asset |
| `Conservation.ConservationTheorem` | src/settlement/engine.rs:125-211 | after every run of calls that keep the contract nothing is minted: the balances of all accounts add up to deposits minus withdrawals, per asset |
| `Locks.UnlockNeverFails` | src/settlement/engine.rs:156-157 | under the invariant `unlock_and_debit` succeeds for every unsettled fill |
| `Locks.RemainderCovered` | src/services/intent_service.rs:130-147 | an unreleased intent's amount less what settled is covered by its owner's locked balance |
| `Locks.CreateLocks` | src/services/intent_service.rs:98-167 | creating an intent keeps lock accounting |
| `Locks.AmendLocks` | src/services/intent_service.rs:325-457 | amending by an amount that fits in i64 keeps lock accounting |
| `Locks.ReleaseLocks` | src/services/intent_service.rs:216-306 | cancelling or failing an unfilled intent once keeps lock accounting |
| `Locks.ExpireLocks` | src/workers/intent_expiry.rs:73-130 | expiring keeps lock accounting, and the guard on the locked balance never bites |
| `Locks.CloseLocks` | src/engine/auction_engine.rs:107-155 | the first close of an unreleased intent keeps lock accounting |
| `Locks.SettleFillLocks` | src/settlement/engine.rs:115-211 | settling a fill takes its quantity out of its intent's lock and of no other |
| `Locks.SettleTradeLocks` | src/settlement/engine.rs:326-369 | trades leave every locked balance alone |
| `Locks.LockAccounting` | src/settlement/engine.rs:156-157 | after every run each locked balance equals the sum over its unreleased intents of amount minus settled quantity |
| `LockLimits.CoveredMeans` | src/settlement/engine.rs:394-409 | an intent is covered exactly when all its unsettled fills can be unlocked one after the other, in any order, leaving what the other orders need |
| `LockLimits.CreateKeptIff` | src/services/intent_service.rs:96-147 | a committed creation keeps accounting and coverage exactly when the amount fits in i64 |
| `LockLimits.AmendKeptIff` | src/services/intent_service.rs:346-457 | a committed amendment, whatever status was written before, keeps both exactly when the amount as cast is not below what was filled |
| `LockLimits.AmendCastIff` | src/services/intent_service.rs:351-353 | on an intent open for amendment, exactly when the new amount fits in i64 |
| `LockLimits.AmendReleasedIff` | src/services/intent_service.rs:346-457 | amending a released intent that was made amendable again keeps the lock equation exactly when it changes nothing |
| `LockLimits.CloseKeptIff` | src/engine/auction_engine.rs:107-155 | any close, repeated or after a release, keeps the lock equation, and coverage exactly when filled quantity plus the smaller of amount and positive nets fits into what the intent still locks |
| `LockLimits.LateCloseFillsIff` | src/engine/auction_engine.rs:107-155 | closing a released intent inserts fills exactly when its amount is positive and some accepted bid has a positive net |
| `LockLimits.ReleaseKeptIff` | src/services/intent_service.rs:216-306 | cancel and fail always commit; the lock equation survives exactly when nothing has settled, or on a repeat when the amount is zero, and coverage exactly when nothing was filled |
| `LockLimits.ExpireMatchIff` | src/workers/intent_expiry.rs:73-130 | expiring an open intent keeps the lock equation exactly when the account found is the owner's or the amount is zero |
| `LockLimits.ReopenedExpireIff` | src/workers/intent_expiry.rs:73-130 | the same for an intent that an auction began again after it closed or was released, with the guard on the locked balance |
| `LockLimits.ForeignReleaseIff` | src/services/intent_service.rs:216-306 | a release through another account keeps the equation exactly when the intent locks nothing and that account's row does not move |
| `LockLimits.ForeignAmendIff` | src/services/intent_service.rs:325-457 | an amendment through another account keeps the equation exactly when the amount stays the same |
| `LockLimits.SettleMatchIff` | src/settlement/engine.rs:156-157 | a committed settlement keeps the lock equation exactly when it charges the owner in the locked asset of an unreleased intent |
| `LockLimits.SettleCommitsIff` | src/settlement/engine.rs:156-168 | under lock accounting an unsettled fill commits exactly when the seller's outgoing asset covers the quantity, counting what he just received and, if he is the buyer, the quantity itself |
| `LockLimits.LockCallBreaks` | src/balances/service.rs:114-154 | every committed lock or unlock call of the balance service breaks the lock equation |
| `LockWitnesses.AmendmentSpendsAnotherLock` | src/services/intent_service.rs:351-394 | a run: amending to 2^64 - 1 commits and leaves another open order of 50 with 49 locked |
| `LockWitnesses.ExpiredAuctionSpendsAnotherLock` | src/engine/auction_engine.rs:107-155 | a run: create, begin, expire, bid, close, settle; the fill of the expired order is paid with another open order's lock |
| `ExactlyOnce.ChargedExactlyOnce` | src/settlement/engine.rs:136-138 | after every run the ledger charges a fill or a trade once if it is settled and never if it is not, whatever was redelivered |
| `Finality.TradeSettlesOnce` | src/settlement/engine.rs:334-336 | a trade settled anywhere in a run is refused with AlreadySettled ever after, and nothing changes |
| `Finality.FillSettlesOnce` | src/settlement/engine.rs:136-138 | a settled fill likewise, whatever parties and rate are named |
| `ExactlyOnce.StatusWritten` | src/settlement/engine.rs:294-320 | which of the four statuses is written, said of the fills one by one |
| `ExactlyOnce.WorkerAgreesWithEngine` | src/settlement/worker.rs:155-189 | after a settle the worker writes the status `compute_intent_status` would compute |
| `ExactlyOnce.AllSettledIff` | src/settlement/engine.rs:294-320 | an order is settled in full exactly when its auction filled it and all its fills settled |
| `ExactlyOnce.RedeliveryRepairs` | src/settlement/worker.rs:138-189 | restarting execution takes Completed from an order settled in full; the next delivery for any of its fills restores it and changes nothing else |
| `ExactlyOnce.MisdirectedEventIff` | src/settlement/worker.rs:78-189 | an event naming another intent than its fill's own keeps every status right exactly when the fill does not complete its order |
| `ExactlyOnce.StatusAlwaysOk` | src/settlement/worker.rs:173-189 | after every run, restarts of execution included, Completed says exactly that the order has settled in full and was not restarted since without a delivery |
| `ExactlyOnce.CompletedIffSettled` | src/settlement/engine.rs:294-320 | after every run an intent is Completed exactly when its auction filled it, every fill settled, and no restart of execution has overwritten that without a delivery after it |
| `Range.StepRange` | src/settlement/engine.rs:394-451 | no call makes an available balance negative |
| `Range.NoNegativeBalance` | src/settlement/engine.rs:394-451 | after every run no available and no locked balance is negative |
| `Machine64.MiddleFits` | src/settlement/engine.rs:162-168 | crediting the buyer before the seller is debited stays within i64, covered by the seller's own row |
| `Machine64.ChargeAndPaySame` | src/settlement/engine.rs:156-186 | a fill between distinct parties does on wrapped values what it does on exact ones |
| `Machine64.TradeSame` | src/settlement/engine.rs:339-350 | the same for a trade |
| `Machine64.SelfSwapIff` | src/settlement/engine.rs:159-168 | between a party and itself the swap is exact precisely when the credited sum fits in i64 |
| `Machine64.StepSame` | src/settlement/engine.rs:394-451 | every call is the same on wrapped and on exact values while net deposits fit |
| `Machine64.MachineRunsExactly` | src/settlement/engine.rs:394-451 | whole runs are the same, so no sum of any run overflows |
| `Driver.PerformAll` | src/settlement/engine.rs:115-369 | the class, driven by any calls, ends in the state of the modelled run |
| `Driver.PerformSound` | src/settlement/engine.rs:115-369 | after any run that keeps the contracts the class's own fields satisfy range, conservation and lock accounting together |
| `Base64.DecodeDigit` | src/cross_chain/wormhole.rs:1028-1034 | one loop turn keeps the accumulator below 2^bits, so the u32 shift loses nothing |
| `Base64.SymbolTable` | src/cross_chain/mock_guardian.rs:104 | the 64 symbols in order |
| `Base64.Decode` | src/cross_chain/wormhole.rs:1015-1038 | succeeds exactly on texts of alphabet digits; the bytes stand for the text's number less its spare bits |
| `Base64.Encode` | src/cross_chain/mock_guardian.rs:103-128 | the digits stand for the data's number, in groups of four with the padding of RFC 4648, section 4 |
| `Base64.EncodesDecodes` | src/cross_chain/wormhole.rs:1015-1038 | an encoding of the data decodes to the data and to nothing else |
| `Base64.RoundTrip` | src/cross_chain/mock_guardian.rs:103-128 | decoding the encoding returns the data, for every input |
| `Vaa.HexInjective` | src/cross_chain/wormhole.rs:710 | the printed emitter determines the emitter |
| `Vaa.HexDigits` | src/cross_chain/wormhole.rs:709 | two lower-case digits a byte, the high one first |
| `Vaa.ParseVaa` | src/cross_chain/wormhole.rs:687-723 | which byte strings are accepted |
| `Vaa.ParsedFields` | src/cross_chain/wormhole.rs:700-723 | at which offsets an accepted VAA keeps chain, emitter, sequence and payload |
| `Vaa.VerifyVaa` | src/cross_chain/wormhole.rs:730-758 | on every parsed VAA: no read out of bounds, Ok exactly for a quorum of distinct known guardians, and the errors name the first offender |
| `Vaa.AtMostAllGuardians` | src/cross_chain/wormhole.rs:730-758 | a verified VAA carries at most 19 signatures |
| `Vaa.BuildVaa` | src/cross_chain/mock_guardian.rs:60-90 | the pushes produce the layout the lemmas below parse |
| `Vaa.BuiltParses` | src/cross_chain/mock_guardian.rs:60-90 | parsing what was built recovers chain, emitter, sequence and payload |
| `Vaa.BuiltVerifiesIff` | src/cross_chain/mock_guardian.rs:60-90 | what was built verifies exactly for 13 to 19 signatures |
| `MessageIds.ParsePrinted` | src/cross_chain/wormhole.rs:186-200 | a printed number parses back exactly when it fits the type |
| `MessageIds.ParseUintIff` | src/cross_chain/wormhole.rs:196-198 | which texts are read as which number |
| `MessageIds.WormholeRoundTripIff` | src/cross_chain/wormhole.rs:186-200 | printing and parsing an id is the identity exactly for emitters without a slash |
| `MessageIds.WormholeAcceptsIff` | src/cross_chain/wormhole.rs:191-200 | exactly which texts are ids and what they name |
| `MessageIds.WormholeCanonical` | src/cross_chain/wormhole.rs:186-200 | printing what any accepted id parsed to gives an id that parses the same |
| `MessageIds.LayerZeroRoundTrip` | src/cross_chain/layerzero.rs:217-230 | printing and parsing an id is the identity for any guid, slashes included |
| `MessageIds.LayerZeroAcceptsIff` | src/cross_chain/layerzero.rs:222-230 | exactly which texts are ids and what they name |
| `Calldata.EncodeCompleteTransfer` | src/cross_chain/wormhole.rs:390-411 | an ABI reading of the calldata returns the exact VAA; the body is whole words and the padding is zero |
| `Legs.Worker.UpdateLegStatus` | src/cross_chain/service.rs:327-358 | writes the status, keeps hash and error when none is given, and reports an unknown leg |
| `Legs.Worker.AskBridge` | src/cross_chain/worker.rs:67-183 | phases 1 to 3: each selected leg moves by its bridge answer |
| `Legs.Worker.ProcessTimeouts` | src/cross_chain/worker.rs:187-213 | phase 4: selected legs are refunded, an escrowed source takes its unfinished destination along |
| `Legs.Worker.FinalizeCompleted` | src/cross_chain/worker.rs:217-244 | phase 5: intents of confirmed fills are completed once |
| `LegAnswers.AskEffect` | src/cross_chain/worker.rs:67-183 | each selected leg does as its answer says: Failed with the error exactly on a failure, Escrowed, Confirmed or Executing exactly on a success, the given hash stored, unchanged otherwise |
| `LegAnswers.RefundEffect` | src/cross_chain/worker.rs:187-213 | exactly which legs are refunded, and with what |
| `LegAnswers.FinalizeEffect` | src/cross_chain/worker.rs:217-244 | completed gains exactly the intents of the fills, each through a fill that is recorded as finalized, and a fill of an already completed intent is not recorded |
| `LegAnswers.CreateEffect` | src/cross_chain/service.rs:60-125 | two pending legs due in 600 seconds |
| `LegAnswers.StatusEarned` | src/cross_chain/worker.rs:67-183 | in every run an escrowed or confirmed source got a successful lock answer, a confirmed one a successful verification after it, and a submitted destination a successful release answer after its source's lock |
| `LegSafety.AskMoves` | src/cross_chain/worker.rs:67-183 | phases 1 to 3 move every leg along allowed transitions; a destination is submitted only while its source holds the funds |
| `LegSafety.RefundedRows` | src/cross_chain/worker.rs:187-213 | refunds never touch a resolved leg |
| `LegSafety.LegMoves` | src/cross_chain/worker.rs:67-244 | every step of the worker moves every leg along allowed transitions |
| `LegSafety.InvStep` | src/cross_chain/service.rs:60-125 | every step keeps legs paired with equal timeouts and finalized fills confirmed |
| `LegSafety.LegSafetyTheorem` | src/cross_chain/worker.rs:67-244 | over every run: Confirmed and Refunded absorb, Failed leads only to Refunded, a dead source's destination is never submitted, finalized fills stay confirmed |
| `LegSafety.SafeFromStart` | src/cross_chain/worker.rs:67-244 | every run from empty tables satisfies the invariant |
| `LegSafety.RefundedSourceMeansOverdue` | src/cross_chain/worker.rs:187-213 | a refunded source faces an unresolved destination only when that destination is overdue itself |
| `LegSafety.TimeoutsDrain` | src/cross_chain/service.rs:220-233 | one timeout phase takes at least 50 legs, or all, off the backlog before any past cutoff |
| `LegSafety.BacklogAfter` | src/cross_chain/service.rs:220-233 | m timeout phases take at least 50 m, or all, whatever happens in between |
| `LegSafety.NoStarvation` | src/cross_chain/service.rs:220-233 | after ceil(n / 50) timeout phases every leg due before the cutoff is Confirmed or Refunded |
| `CircuitBreaker.Breaker.Enter` | src/circuit_breaker.rs:137-163 | the gate of a call |
| `CircuitBreaker.Breaker.Succeed` | src/circuit_breaker.rs:200-224 | the record of a success |
| `CircuitBreaker.Breaker.Fail` | src/circuit_breaker.rs:226-269 | the record of a failure |
| `CircuitBreaker.Breaker.ManualReset` | src/circuit_breaker.rs:189-196 | the manual reset |
| `CircuitBreaker.BreakerInvariant` | src/circuit_breaker.rs:133-269 | over every interleaving: opened_at set iff not Closed; in Closed the count is the failures since the last success or reset and below the threshold; arrivals are rejections, results and calls in flight |
| `CircuitBreaker.OpensAtThreshold` | src/circuit_breaker.rs:237-252 | a closed breaker opens on exactly the failure that completes the streak |
| `CircuitBreaker.GateIff` | src/circuit_breaker.rs:137-163 | in every reachable state a call is let through exactly when the breaker is not open or its timeout has passed, and which state and count follow |
| `CircuitBreaker.ResultEffect` | src/circuit_breaker.rs:200-269 | a good probe closes, a failed one reopens from now on, a result while open changes neither state nor opening time |
| `CircuitBreaker.TotalsCount` | src/circuit_breaker.rs:200-229 | each total counts its own events over every run |
| `CircuitBreaker.OpenWindow` | src/circuit_breaker.rs:133-163 | until the reset timeout every arrival is rejected and late results change neither state nor opening time |
| `CircuitBreaker.EveryArrivalProbes` | src/circuit_breaker.rs:142-150 | after the timeout every arrival before a result is let through |
| `Twap.CreateTwap` | src/twap/service.rs:50-115 | which parameters are refused, and the schedule created otherwise |
| `Twap.SlicesSumIff` | src/twap/service.rs:61-99 | slices add up to the order exactly when the slice count is positive after the cast to i32 |
| `Twap.CastMeans` | src/twap/service.rs:61 | the cast to i32 keeps the number modulo 2^32 |
| `Twap.SliceShape` | src/twap/service.rs:61-99 | equal slices, the last larger by less than one unit a slice; each starts pending and without an intent |
| `Twap.WindowsTile` | src/twap/scheduler.rs:83-84 | slice windows follow each other without gap or overlap inside the duration |
| `Twap.Order.ProcessDueSlices` | src/twap/scheduler.rs:66-127 | due slices are submitted one by one, refused ones fail |
| `Twap.Order.OnCompleted` | src/twap/service.rs:195-227 | completion is recorded once and may complete the parent |
| `Twap.Order.OnExpired` | src/twap/service.rs:230-259 | expiry is recorded once and may fail the parent |
| `Twap.Order.Cancel` | src/twap/service.rs:130-167 | an active parent and its open children are cancelled, and which intents are cancelled with them |
| `Twap.TwapRun` | src/twap/service.rs:195-259 | over every run with duplicates, and with slices submitted after a cancel: filled quantity is the completed children's, at most the order; an active parent has slices and quantity left; not active is final; the slice counter is over by the children that completed after expiring |
| `Twap.CompletionVerdict` | src/twap/service.rs:195-227 | what one completion changes, and that it completes an active parent exactly when the completed children fill the order or the slices are used up |
| `Twap.ExpiryVerdict` | src/twap/service.rs:230-259 | what one expiry changes, and that it fails an active parent exactly when the slices are used up with the order not filled |
| `Twap.FilledEndsCompleted` | src/twap/service.rs:195-227 | over every run without expiry or cancel an order filled in full is Completed |
| `Twap.CancelEffect` | src/twap/service.rs:130-167 | which rows a cancel changes |
| `Twap.OpenIntentsAre` | src/twap/service.rs:137-149 | which intents are cancelled with an order |
| `Twap.SubmitEffect` | src/twap/scheduler.rs:66-127 | the due slices after the loop, one by one |
| `Twap.CreatedInvIff` | src/twap/service.rs:61-115 | a created order starts inside that invariant exactly when its slice count is positive |
| `Twap.VerdictDependsOnOrder` | src/twap/service.rs:195-259 | the same expiry and completion end in Completed or Failed depending on their order |
| `Risk.RiskEngine.CheckUserLimits` | src/risk/service.rs:403-431 | prune, rate check, day reset, volume check, in that order |
| `Risk.RiskEngine.RecordAcceptedIntent` | src/risk/service.rs:173-181 | append, day reset, add |
| `Risk.PruneIsSuffix` | src/risk/service.rs:98-101 | pruning drops exactly a prefix of old entries |
| `Risk.StepTimes` | src/risk/service.rs:403-431 | one checked and later recorded intent keeps max + 1 acceptances at least a minute apart |
| `Risk.WindowHolds` | src/risk/service.rs:411-416 | that spacing means no minute holds more than the limit |
| `Risk.RateLimit` | src/risk/service.rs:403-431 | over every run no 60-second window holds more accepted intents of a user than the limit |
| `Risk.StepVolume` | src/risk/service.rs:418-428 | one checked and later recorded intent keeps every day's volume within the limit |
| `Risk.VerdictIff` | src/risk/service.rs:403-431 | in every reachable state the verdict is decided by the acceptances of the last minute and the volume accepted that day |
| `Risk.DayLimitIff` | src/risk/service.rs:418-428 | over every run no day holds more volume than the limit, exactly when the limit is at most 2^63 or nothing is let through |
| `Positions.Tracker.Record` | src/solver/positions.rs:78-168 | the new row, in all cases |
| `Positions.FillEffect` | src/solver/positions.rs:96-140 | position, realized profit on the part by which fill and position cancel each other, and the average, in all cases |
| `Positions.DriftAtAnyMark` | src/solver/positions.rs:171-188 | reported minus cash-flow profit does not depend on the mark |
| `Positions.StepLaw` | src/solver/positions.rs:96-140 | the exact change of that difference by one fill, long and short, adding, reducing and flipping |
| `Positions.ReducingExactIff` | src/solver/positions.rs:103-118 | a reducing fill is reported exactly when it shortens a long position without flipping it, or at the average price; covering a short is off by twice its profit |
| `Positions.DriftBound` | src/solver/positions.rs:96-188 | over every long-only run the difference lies between zero and the sum of new position less one over increasing fills |

## Left out

- HTTP, Redis and WebSocket handling, metrics, caches, authentication, retries and configuration: plumbing; what remains of the streams is that an event may arrive any number of times in any order.
- Token names are modelled after parsing, as a known asset or an unknown one.
- Service.Store.Settle: fees are computed over real numbers and truncated, where the source rounds through f64; the run theorems use only that the fee of a rate in [0, 1] lies between zero and the amount and splits without loss.
- Conservation.FeeSplit: for amounts above 2^53 and rates near one the f64 product can round above the amount, which real arithmetic does not show.
- Service.Store.DepositFunds: each call of the balance service is one atomic step; the source reads and writes the row without a lock, so concurrent calls can lose an update.
- Service.Store.Amend: the table of amendments is not modelled.
- Service.Store.Submit: the oracle and cross-market checks of a bid enter as one answer.
- Service.Store.Create: the risk checks before the transaction enter as one answer; `Risk` models the per-user limits and the order size is checked here.
- Service.Store.Expire: the row selection by deadline is not modelled; any intent may be expired at any time.
- Service.Store.SettleAll: the fills to settle are any list of ids, where the source queries the unsettled fills of the intent by price.
- Service.SettledTotal: sums of fills are not bounded by 64 bits; under lock accounting they never exceed the order's amount.
- Locks.LockAccounting: the two lock calls of the balance service stay out of these runs, because they move locked funds with no intent behind them (`LockLimits.LockCallBreaks`); conservation and the ledger law include them.
- Machine64.MachineRunsExactly: buyer and seller of a settlement are different accounts; `Machine64.SelfSwapIff` says what happens when they are not.
- Stop orders wait for a trigger that is not modelled; once triggered they are treated as market orders.
- Legs.Worker.AskBridge: bridge calls and row selection are parameters, and each phase is one step, so a confirmation from outside cannot fall between two rows of a phase; that releases ever succeed is not claimed.
- Legs.Worker.ProcessTimeouts: database errors inside the loop are not modelled, so no selected leg is skipped.
- Legs.Worker.FinalizeCompleted: no other writer takes Completed back from an intent.
- LegSafety.InvStep: the two inserts of a new settlement are one step, so a lone source leg does not arise.
- CircuitBreaker.Breaker.Enter: the clock is read once per call; counters are not bounded by 32 or 64 bits.
- Twap.TwapRun: one parent order; a Completed event reports the child's whole quantity, which rules out amended children.
- Positions.Tracker.Record: 64-bit overflow of the products is not modelled.
- Risk.RiskEngine.CheckUserLimits: calls of one user's `create_intent` are serialized and both clocks never run backwards.
- The LayerZero send encoder, HTLC contracts, wallet signing, reputation scores, oracle prices, fee collection and the settlement retry table are not part of this model.
