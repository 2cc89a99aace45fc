/** Runs of the exchange: any finite sequence of service calls, in any order, on any accounts and intents.
    `History` remembers what no table stores: who opened an intent, which auctions closed,
    which intents gave their lock back, and the net deposits. */
module Runs {
  import opened Prelude
  import opened Auction
  import opened Accounting
  import opened Exchange

  datatype BalanceCall =
    | DepositCall(acct: Account, asset: Asset, amount: int)
    | WithdrawCall(acct: Account, asset: Asset, amount: int)
    | LockCall(acct: Account, asset: Asset, amount: int)
    | UnlockCall(acct: Account, asset: Asset, amount: int)
    | TransferCall(from: Account, to: Account, asset: Asset, amount: int)

  datatype IntentCall =
    | CreateCall(acct: Account, tokenIn: Token, tokenOut: Token, amountIn: nat, minAmountOut: nat,
                 riskOk: bool, minOrderSize: int)
    | AmendCall(intent: Id, acct: Account, newAmountIn: Option<nat>, newMinAmountOut: Option<nat>,
                newLimitPrice: Option<int>)
    | ReleaseCall(intent: Id, acct: Account, failed: bool)  // fail_intent or cancel_intent
    | ExpireCall(intent: Id, found: Option<Account>)

  datatype AuctionCall =
    | BidCall(intent: Id, bid: Bid, riskOk: bool)
    | BeginCall(intent: Id)
    | CloseCall(intent: Id)
    | ExecuteCall(intent: Id)

  datatype SettleCall =
    | EventCall(fill: Id, intent: Id, buyer: Account, seller: Account, tokenIn: Token, tokenOut: Token, rate: real)
    | SettleIntentCall(intent: Id, rows: seq<Id>, buyer: Account, seller: Account,
                       assetIn: Asset, assetOut: Asset, rate: real)
    | NewTradeCall(trade: Trade)
    | SettleTradeCall(id: Id)

  datatype Step = OnBalance(b: BalanceCall) | OnIntent(i: IntentCall) | OnAuction(a: AuctionCall) | OnSettle(s: SettleCall)

  function ApplyBalance(w: Width, db: Db, c: BalanceCall): Result {
    match c
    case DepositCall(acct, asset, amount) => Deposit(w, db, acct, asset, amount)
    case WithdrawCall(acct, asset, amount) => Withdraw(w, db, acct, asset, amount)
    case LockCall(acct, asset, amount) => LockBalance(w, db, acct, asset, amount)
    case UnlockCall(acct, asset, amount) => UnlockBalance(w, db, acct, asset, amount)
    case TransferCall(from, to, asset, amount) => Transfer(w, db, from, to, asset, amount)
  }

  function ApplyIntent(w: Width, db: Db, c: IntentCall): Result {
    match c
    case CreateCall(acct, tokenIn, tokenOut, amountIn, minAmountOut, riskOk, minOrderSize) =>
      CreateIntent(w, db, acct, tokenIn, tokenOut, amountIn, minAmountOut, riskOk, minOrderSize)
    case AmendCall(i, acct, newAmountIn, newMinAmountOut, newLimitPrice) =>
      AmendIntent(w, db, i, acct, newAmountIn, newMinAmountOut, newLimitPrice)
    case ReleaseCall(i, acct, failed) => ReleaseIntent(w, db, i, acct, if failed then Failed else Cancelled)
    case ExpireCall(i, found) => ExpireIntent(w, db, i, found)
  }

  ghost function ApplyAuction(db: Db, c: AuctionCall): Result {
    match c
    case BidCall(i, bid, riskOk) => SubmitBid(db, i, bid, riskOk)
    case BeginCall(i) => BeginAuction(db, i)
    case CloseCall(i) => CloseAuction(db, i)
    case ExecuteCall(i) => StartExecution(db, i)
  }

  ghost function ApplySettle(w: Width, db: Db, c: SettleCall): Result {
    match c
    case EventCall(f, i, buyer, seller, tokenIn, tokenOut, rate) =>
      ProcessEvent(w, db, f, i, buyer, seller, tokenIn, tokenOut, rate)
    case SettleIntentCall(i, rows, buyer, seller, assetIn, assetOut, rate) =>
      SettleIntentFills(w, db, i, rows, buyer, seller, assetIn, assetOut, rate)
    case NewTradeCall(trade) => CreateTrade(db, trade)
    case SettleTradeCall(id) => SettleTrade(w, db, id)
  }

  ghost function Apply(w: Width, db: Db, s: Step): Result {
    match s
    case OnBalance(c) => ApplyBalance(w, db, c)
    case OnIntent(c) => ApplyIntent(w, db, c)
    case OnAuction(c) => ApplyAuction(db, c)
    case OnSettle(c) => ApplySettle(w, db, c)
  }

  // ---------------------------------------------------------------
  // History
  // ---------------------------------------------------------------

  datatype Origin = Origin(
    owner: map<Id, Account>,   // the account whose funds an intent locked
    closed: set<Id>,           // intents whose auction has closed
    released: set<Id>)         // intents cancelled, failed or expired with their lock given back

  datatype History = History(
    origin: Origin,
    net: map<Asset, int>,      // deposits minus withdrawals
    linked: set<Account>)      // accounts whose ledger rows can name one another

  function NetDeposits(h: History, a: Asset): int { if a in h.net then h.net[a] else 0 }

  function AddNet(h: History, a: Asset, amount: int): History { h.(net := h.net[a := NetDeposits(h, a) + amount]) }

  /** The account a committed settlement of `f` credits with a solver fee. */
  function PaidSolver(w: Width, db: Db, f: Id, buyer: Account, seller: Account,
                      assetIn: Asset, assetOut: Asset, rate: real): set<Account> {
    if SettleFill(w, db, f, buyer, seller, assetIn, assetOut, rate).outcome.Done?
       && SolverFee(TotalFee(db.fills[f].filledQty, rate)) > 0
    then {SolverAccount(db, db.fills[f].solver)} else {}
  }

  function PaidSolvers(w: Width, db: Db, rows: seq<Id>, buyer: Account, seller: Account,
                       assetIn: Asset, assetOut: Asset, rate: real): set<Account>
    decreases |rows|
  {
    if rows == [] then {}
    else PaidSolver(w, db, rows[0], buyer, seller, assetIn, assetOut, rate)
         + PaidSolvers(w, SettleFill(w, db, rows[0], buyer, seller, assetIn, assetOut, rate).db, rows[1..],
                       buyer, seller, assetIn, assetOut, rate)
  }

  function ObserveBalance(w: Width, h: History, db: Db, c: BalanceCall): History {
    if c.TransferCall? then h.(linked := h.linked + {c.from, c.to})
    else if c.DepositCall? && ApplyBalance(w, db, c).outcome.Done? then AddNet(h, c.asset, c.amount)
    else if c.WithdrawCall? && ApplyBalance(w, db, c).outcome.Done? then AddNet(h, c.asset, -c.amount)
    else h
  }

  function OriginOfIntent(w: Width, o: Origin, db: Db, c: IntentCall): Origin {
    if !ApplyIntent(w, db, c).outcome.Done? then o
    else if c.CreateCall? then o.(owner := o.owner[db.nextId := c.acct])
    else if c.AmendCall? then o
    else o.(released := o.released + {c.intent})
  }

  function OriginOfAuction(o: Origin, db: Db, c: AuctionCall): Origin {
    if c.CloseCall? && c.intent in db.intents then o.(closed := o.closed + {c.intent}) else o
  }

  function ObserveSettle(w: Width, h: History, db: Db, c: SettleCall): History {
    if c.EventCall? && c.tokenIn.Known? && c.tokenOut.Known? then
      h.(linked := h.linked + PaidSolver(w, db, c.fill, c.buyer, c.seller, c.tokenIn.asset, c.tokenOut.asset, c.rate))
    else if c.SettleIntentCall? then
      h.(linked := h.linked + PaidSolvers(w, db, c.rows, c.buyer, c.seller, c.assetIn, c.assetOut, c.rate))
    else h
  }

  function Observe(w: Width, h: History, db: Db, s: Step): History {
    match s
    case OnBalance(c) => ObserveBalance(w, h, db, c)
    case OnIntent(c) => h.(origin := OriginOfIntent(w, h.origin, db, c))
    case OnAuction(c) => h.(origin := OriginOfAuction(h.origin, db, c))
    case OnSettle(c) => ObserveSettle(w, h, db, c)
  }

  // ---------------------------------------------------------------
  // Runs
  // ---------------------------------------------------------------

  datatype World = World(db: Db, h: History)

  function Start(solverAccounts: map<string, Account>): World {
    World(Db(map[], [], map[], map[], map[], map[], solverAccounts, 0), History(Origin(map[], {}, {}), map[], {PLATFORM}))
  }

  ghost function Next(w: Width, x: World, s: Step): World {
    World(Apply(w, x.db, s).db, Observe(w, x.h, x.db, s))
  }

  ghost function Run(w: Width, x: World, steps: seq<Step>): World {
    if steps == [] then x
    else Next(w, Run(w, x, steps[..|steps| - 1]), steps[|steps| - 1])
  }
}
