/** The exchange database and what each service call does to it. Every call is one transaction:
    it yields the state it commits, or the state it started from together with the reason.
    (src/balances/service.rs, src/services/intent_service.rs, src/engine/auction_engine.rs,
    src/settlement/engine.rs, src/settlement/worker.rs, src/workers/intent_expiry.rs) */
module Exchange {
  import opened Prelude
  import opened Sums
  import opened Auction
  import opened Accounting

  datatype IntentStatus =
    Open | Bidding | Matched | PartiallyFilled | Executing | Completed | Failed | Cancelled | Expired

  /** A token name after `parse_asset`. */
  datatype Token = Known(asset: Asset) | Unknown

  datatype Intent = Intent(tokenIn: Token, tokenOut: Token, amountIn: int, minAmountOut: int,
                           status: IntentStatus, orderType: OrderType, limitPrice: Option<int>)

  datatype Fill = Fill(intent: Id, solver: string, price: int, qty: int, filledQty: int, settled: bool)

  datatype Trade = Trade(buyer: Account, seller: Account, solver: Account, assetIn: Asset, assetOut: Asset,
                         amountIn: int, amountOut: int, platformFee: int, solverFee: int, settled: bool)

  datatype Db = Db(
    balances: Balances,
    ledger: seq<Entry>,
    intents: map<Id, Intent>,
    bids: map<Id, seq<Bid>>,
    fills: map<Id, Fill>,
    trades: map<Id, Trade>,
    solverAccounts: map<string, Account>,  // accounts joined with users
    nextId: Id)                            // the source of fresh UUIDs

  datatype Reason =
    | InvalidAmount | InsufficientBalance | InsufficientLockedBalance | RiskRejected | InvalidAsset
    | IntentNotFound | NotAmendable | FillNotFound | TradeNotFound | AlreadySettled | StorageError

  datatype Outcome = Done | Skipped | Rejected(reason: Reason)

  datatype Result = Result(db: Db, outcome: Outcome)

  function Refuse(db: Db, reason: Reason): Result { Result(db, Rejected(reason)) }

  // ---------------------------------------------------------------
  // Balance service
  // ---------------------------------------------------------------

  function Deposit(w: Width, db: Db, acct: Account, asset: Asset, amount: int): Result {
    if amount <= 0 then Refuse(db, InvalidAmount)
    else
      Result(db.(balances := Credit(w, db.balances, acct, asset, amount),
                 ledger := Post(db.ledger, Entry(acct, asset, amount, DEBIT, DEPOSIT, db.nextId)),
                 nextId := db.nextId + 1), Done)
  }

  function Withdraw(w: Width, db: Db, acct: Account, asset: Asset, amount: int): Result {
    if amount <= 0 then Refuse(db, InvalidAmount)
    else
      match Debit(w, db.balances, acct, asset, amount)
      case None => Refuse(db.(balances := Touch(db.balances, acct, asset)), InsufficientBalance)
      case Some(b) =>
        Result(db.(balances := b,
                   ledger := Post(db.ledger, Entry(acct, asset, amount, CREDIT, WITHDRAWAL, db.nextId)),
                   nextId := db.nextId + 1), Done)
  }

  function LockBalance(w: Width, db: Db, acct: Account, asset: Asset, amount: int): Result {
    var row := Row(db.balances, acct, asset);
    if amount <= 0 then Refuse(db, InvalidAmount)
    else if row.available < amount then
      Refuse(db.(balances := Touch(db.balances, acct, asset)), InsufficientBalance)
    else
      Result(db.(balances := db.balances[(acct, asset) :=
                   Balance(Fit(w, row.available - amount), Fit(w, row.locked + amount))]), Done)
  }

  function UnlockBalance(w: Width, db: Db, acct: Account, asset: Asset, amount: int): Result {
    var row := Row(db.balances, acct, asset);
    if amount <= 0 then Refuse(db, InvalidAmount)
    else if row.locked < amount then
      Refuse(db.(balances := Touch(db.balances, acct, asset)), InsufficientLockedBalance)
    else
      Result(db.(balances := db.balances[(acct, asset) :=
                   Balance(Fit(w, row.available + amount), Fit(w, row.locked - amount))]), Done)
  }

  /** Both rows are read before either is written. */
  function MoveRows(w: Width, b: Balances, from: Account, to: Account, asset: Asset, amount: int): Balances {
    var source, target := Row(b, from, asset), Row(b, to, asset);
    b[(from, asset) := source.(available := Fit(w, source.available - amount))]
     [(to, asset) := target.(available := Fit(w, target.available + amount))]
  }

  /** `create_double_entry`: the first account is debited, the second credited. */
  function DoubleEntry(l: seq<Entry>, first: Account, second: Account, asset: Asset, amount: int, reference: Id): seq<Entry> {
    Post(Post(l, Entry(first, asset, amount, DEBIT, TRADE, reference)), Entry(second, asset, amount, CREDIT, TRADE, reference))
  }

  function Transfer(w: Width, db: Db, from: Account, to: Account, asset: Asset, amount: int): Result {
    var b := Touch(db.balances, from, asset);
    if amount <= 0 then Refuse(db, InvalidAmount)
    else if Row(b, from, asset).available < amount then Refuse(db.(balances := b), InsufficientBalance)
    else
      Result(db.(balances := MoveRows(w, b, from, to, asset, amount),
                 ledger := DoubleEntry(db.ledger, from, to, asset, amount, db.nextId),
                 nextId := db.nextId + 1), Done)
  }

  // ---------------------------------------------------------------
  // Intent service
  // ---------------------------------------------------------------

  /** `riskOk` is the answer of the checks of `validate_intent` other than the order size. */
  function CreateIntent(w: Width, db: Db, acct: Account, tokenIn: Token, tokenOut: Token,
                        amountIn: nat, minAmountOut: nat, riskOk: bool, minOrderSize: int): Result {
    var amount := AsI64(amountIn);
    if !riskOk || amount < minOrderSize then Refuse(db, RiskRejected)
    else if tokenIn.Unknown? then Refuse(db, InvalidAsset)
    else if Row(db.balances, acct, tokenIn.asset).available < amount then Refuse(db, InsufficientBalance)
    else
      match Shift(w, db.balances, acct, tokenIn.asset, -amount, amount)
      case None => Refuse(db, StorageError)
      case Some(b) =>
        var intent := Intent(tokenIn, tokenOut, amount, AsI64(minAmountOut), Open, Market, None);
        Result(db.(balances := b, intents := db.intents[db.nextId := intent], nextId := db.nextId + 1), Done)
  }

  function SetStatus(db: Db, i: Id, status: IntentStatus): Db
    requires i in db.intents
  {
    db.(intents := db.intents[i := db.intents[i].(status := status)])
  }

  /** `cancel_intent` and `fail_intent`: neither looks at the status it overwrites. */
  function ReleaseIntent(w: Width, db: Db, i: Id, acct: Account, status: IntentStatus): Result {
    if i !in db.intents then Result(db, Skipped)
    else
      var intent := db.intents[i];
      if intent.tokenIn.Unknown? then Refuse(db, InvalidAsset)
      else
        match Shift(w, db.balances, acct, intent.tokenIn.asset, intent.amountIn, -intent.amountIn)
        case None => Refuse(db, StorageError)
        case Some(b) => Result(SetStatus(db.(balances := b), i, status), Done)
  }

  /** `expire_intent`, where `acct` is the account found for the intent's user. */
  function ExpireIntent(w: Width, db: Db, i: Id, acct: Option<Account>): Result {
    if i !in db.intents || !(db.intents[i].status.Open? || db.intents[i].status.Bidding?) then Result(db, Skipped)
    else
      var intent := db.intents[i];
      var marked := SetStatus(db, i, Expired);
      if acct.None? || intent.tokenIn.Unknown? then Result(marked, Done)
      else if Row(db.balances, acct.value, intent.tokenIn.asset).locked < intent.amountIn then Result(marked, Done)
      else
        match Shift(w, db.balances, acct.value, intent.tokenIn.asset, intent.amountIn, -intent.amountIn)
        case None => Refuse(db, StorageError)
        case Some(b) => Result(marked.(balances := b), Done)
  }

  /** Lock `diff` more, or give `-diff` back; no statement is issued for an unchanged amount. */
  function Relock(w: Width, b: Balances, acct: Account, asset: Asset, diff: int): (r: Option<Balances>)
    ensures w.Exact? ==> r == Shift(Exact, b, acct, asset, -diff, diff)
  {
    if diff == 0 then
      assert (acct, asset) in b ==> b[(acct, asset) := Balance(b[(acct, asset)].available, b[(acct, asset)].locked)] == b;
      Some(b)
    else if diff > 0 then Shift(w, b, acct, asset, -diff, diff)
    else Shift(w, b, acct, asset, Fit(w, -diff), -Fit(w, -diff))
  }

  function AmendedAmount(intent: Intent, newAmountIn: Option<nat>): int {
    if newAmountIn.Some? then AsI64(newAmountIn.value) else intent.amountIn
  }

  function AmendDiff(w: Width, intent: Intent, newAmountIn: Option<nat>): int {
    Fit(w, AmendedAmount(intent, newAmountIn) - intent.amountIn)
  }

  function AmendIntent(w: Width, db: Db, i: Id, acct: Account, newAmountIn: Option<nat>,
                       newMinAmountOut: Option<nat>, newLimitPrice: Option<int>): Result {
    if i !in db.intents then Refuse(db, IntentNotFound)
    else
      var intent := db.intents[i];
      if !(intent.status.Open? || intent.status.Bidding?) then Refuse(db, NotAmendable)
      else if intent.tokenIn.Unknown? then Refuse(db, InvalidAsset)
      else
        var diff := AmendDiff(w, intent, newAmountIn);
        if diff > 0 && Row(db.balances, acct, intent.tokenIn.asset).available < diff then
          Refuse(db, InsufficientBalance)
        else
          match Relock(w, db.balances, acct, intent.tokenIn.asset, diff)
          case None => Refuse(db, StorageError)
          case Some(b) =>
            var amended := intent.(
              amountIn := AmendedAmount(intent, newAmountIn),
              minAmountOut := if newMinAmountOut.Some? then AsI64(newMinAmountOut.value) else intent.minAmountOut,
              limitPrice := if newLimitPrice.Some? then newLimitPrice else intent.limitPrice,
              status := Open);
            Result(db.(balances := b, intents := db.intents[i := amended]), Done)
  }

  // ---------------------------------------------------------------
  // Auction and execution engines
  // ---------------------------------------------------------------

  function BidsOf(db: Db, i: Id): seq<Bid> { if i in db.bids then db.bids[i] else [] }

  /** `riskOk` is the answer of `validate_bid`. */
  function SubmitBid(db: Db, i: Id, bid: Bid, riskOk: bool): Result {
    if i !in db.intents then Refuse(db, IntentNotFound)
    else if !riskOk then Refuse(db, RiskRejected)
    else Result(db.(bids := db.bids[i := BidsOf(db, i) + [bid]]), Done)
  }

  /** The opening of `run_auction`, and `start_bidding`. */
  function BeginAuction(db: Db, i: Id): Result {
    if i !in db.intents then Result(db, Skipped) else Result(SetStatus(db, i, Bidding), Done)
  }

  function AcceptedBids(db: Db, i: Id): seq<Bid>
    requires i in db.intents
  {
    FilterBids(db.intents[i].orderType, db.intents[i].limitPrice, SortBids(BidsOf(db, i)))
  }

  function InsertFills(fills: map<Id, Fill>, i: Id, drafts: seq<Draft>, firstId: Id): map<Id, Fill>
    decreases |drafts|
  {
    if drafts == [] then fills
    else
      var d := drafts[0];
      InsertFills(fills[firstId := Fill(i, d.solver, d.price, d.qty, d.filledQty, false)], i, drafts[1..], firstId + 1)
  }

  /** The fills a close inserts; there are none without an accepted bid. */
  function CloseDrafts(db: Db, i: Id): seq<Draft>
    requires i in db.intents
  {
    GenerateFills(db.intents[i].amountIn, AcceptedBids(db, i))
  }

  function CloseStatus(db: Db, i: Id): IntentStatus
    requires i in db.intents
  {
    if AcceptedBids(db, i) == [] then Failed
    else if TotalFilled(CloseDrafts(db, i)) >= db.intents[i].amountIn then Matched
    else PartiallyFilled
  }

  function WithFills(db: Db, i: Id, drafts: seq<Draft>): Db {
    db.(fills := InsertFills(db.fills, i, drafts, db.nextId), nextId := db.nextId + |drafts|)
  }

  /** `close_auction` does not look at the status either. */
  function CloseAuction(db: Db, i: Id): Result {
    if i !in db.intents then Result(db, Skipped)
    else Result(WithFills(SetStatus(db, i, CloseStatus(db, i)), i, CloseDrafts(db, i)), Done)
  }

  ghost predicate HasFills(fills: map<Id, Fill>, i: Id) { exists f :: f in fills && fills[f].intent == i }

  ghost function StartExecution(db: Db, i: Id): Result {
    if i !in db.intents || !HasFills(db.fills, i) then Result(db, Skipped)
    else Result(SetStatus(db, i, Executing), Done)
  }

  // ---------------------------------------------------------------
  // Settlement
  // ---------------------------------------------------------------

  function Trunc(x: real): int { if x >= 0.0 then x.Floor else -(-x).Floor }

  function TotalFee(amount: int, rate: real): int { Clamp64(Trunc(amount as real * rate)) }

  function SolverFee(totalFee: int): int { Clamp64(Trunc(totalFee as real * 0.3)) }

  /** Seller gets the incoming asset, buyer the outgoing one, and only then is the seller charged. */
  function Swap(w: Width, b: Balances, buyer: Account, seller: Account, assetIn: Asset, assetOut: Asset,
                receives: int, out: int): Option<Balances> {
    var b1 := Credit(w, b, seller, assetIn, receives);
    var b2 := Credit(w, b1, buyer, assetOut, out);
    Debit(w, b2, seller, assetOut, out)
  }

  function SolverAccount(db: Db, solver: string): Account {
    if solver in db.solverAccounts then db.solverAccounts[solver] else PLATFORM
  }

  function CreditFee(w: Width, b: Balances, acct: Account, asset: Asset, fee: int): Balances {
    if fee > 0 then Credit(w, b, acct, asset, fee) else b
  }

  function PostFee(l: seq<Entry>, asset: Asset, fee: int, reference: Id): seq<Entry> {
    if fee > 0 then Post(l, Entry(PLATFORM, asset, fee, DEBIT, FEE, reference)) else l
  }

  function PostFees(l: seq<Entry>, asset: Asset, platformFee: int, solverFee: int, reference: Id): seq<Entry> {
    PostFee(PostFee(l, asset, platformFee, reference), asset, solverFee, reference)
  }

  /** The four entries common to both kinds of settlement. */
  function PostSwap(l: seq<Entry>, buyer: Account, seller: Account, assetIn: Asset, assetOut: Asset,
                    paid: int, receives: int, out: int, reference: Id): seq<Entry> {
    var l1 := Post(l, Entry(buyer, assetIn, paid, CREDIT, TRADE, reference));
    var l2 := Post(l1, Entry(buyer, assetOut, out, DEBIT, TRADE, reference));
    var l3 := Post(l2, Entry(seller, assetIn, receives, DEBIT, TRADE, reference));
    Post(l3, Entry(seller, assetOut, out, CREDIT, TRADE, reference))
  }

  /** What follows once the buyer has been charged; a fee that is not positive is not credited. */
  function PayOut(w: Width, b: Balances, buyer: Account, seller: Account, solver: Account, assetIn: Asset, assetOut: Asset,
                  receives: int, out: int, platformFee: int, solverFee: int): Option<Balances> {
    match Swap(w, b, buyer, seller, assetIn, assetOut, receives, out)
    case None => None
    case Some(b1) =>
      Some(CreditFee(w, CreditFee(w, b1, PLATFORM, assetIn, platformFee), solver, assetIn, solverFee))
  }

  /** The whole movement of one fill, once its fees are known. */
  function ChargeAndPay(w: Width, b: Balances, buyer: Account, seller: Account, solver: Account, assetIn: Asset, assetOut: Asset,
                        paid: int, out: int, totalFee: int, solverFee: int): Option<Balances> {
    match UnlockAndDebit(w, b, buyer, assetIn, paid)
    case None => None
    case Some(b0) =>
      PayOut(w, b0, buyer, seller, solver, assetIn, assetOut, paid - totalFee, out, totalFee - solverFee, solverFee)
  }

  function FillBalances(w: Width, db: Db, f: Id, buyer: Account, seller: Account,
                        assetIn: Asset, assetOut: Asset, rate: real): Option<Balances>
    requires f in db.fills
  {
    var fill := db.fills[f];
    var fee := TotalFee(fill.filledQty, rate);
    ChargeAndPay(w, db.balances, buyer, seller, SolverAccount(db, fill.solver), assetIn, assetOut,
                 fill.filledQty, fill.qty, fee, SolverFee(fee))
  }

  /** The solver fee is credited to the solver but posted to the platform. */
  function FillLedger(db: Db, f: Id, buyer: Account, seller: Account,
                      assetIn: Asset, assetOut: Asset, rate: real): seq<Entry>
    requires f in db.fills
  {
    var fill := db.fills[f];
    var fee := TotalFee(fill.filledQty, rate);
    PostFees(PostSwap(db.ledger, buyer, seller, assetIn, assetOut, fill.filledQty, fill.filledQty - fee, fill.qty, f),
             assetIn, fee - SolverFee(fee), SolverFee(fee), f)
  }

  function SettleFill(w: Width, db: Db, f: Id, buyer: Account, seller: Account,
                      assetIn: Asset, assetOut: Asset, rate: real): Result {
    if f !in db.fills then Refuse(db, FillNotFound)
    else if db.fills[f].settled then Refuse(db, AlreadySettled)
    else
      match FillBalances(w, db, f, buyer, seller, assetIn, assetOut, rate)
      case None => Refuse(db, InsufficientBalance)
      case Some(b) =>
        Result(db.(balances := b,
                   ledger := FillLedger(db, f, buyer, seller, assetIn, assetOut, rate),
                   fills := db.fills[f := db.fills[f].(settled := true)]), Done)
  }

  function TradeBalances(w: Width, b: Balances, t: Trade): Option<Balances> {
    match Debit(w, b, t.buyer, t.assetIn, t.amountIn)
    case None => None
    case Some(b0) =>
      match Swap(w, b0, t.buyer, t.seller, t.assetIn, t.assetOut, t.amountIn - t.platformFee - t.solverFee, t.amountOut)
      case None => None
      case Some(b1) =>
        var b2 := Credit(w, b1, PLATFORM, t.assetIn, t.platformFee);
        Some(Credit(w, b2, t.solver, t.assetIn, t.solverFee))
  }

  function TradeLedger(l: seq<Entry>, id: Id, t: Trade): seq<Entry> {
    var l1 := PostSwap(l, t.buyer, t.seller, t.assetIn, t.assetOut,
                       t.amountIn, t.amountIn - t.platformFee - t.solverFee, t.amountOut, id);
    var l2 := Post(l1, Entry(PLATFORM, t.assetIn, t.platformFee, DEBIT, FEE, id));
    Post(l2, Entry(t.solver, t.assetIn, t.solverFee, DEBIT, FEE, id))
  }

  function CreateTrade(db: Db, t: Trade): Result {
    Result(db.(trades := db.trades[db.nextId := t.(settled := false)], nextId := db.nextId + 1), Done)
  }

  function SettleTrade(w: Width, db: Db, id: Id): Result {
    if id !in db.trades then Refuse(db, TradeNotFound)
    else if db.trades[id].settled then Refuse(db, AlreadySettled)
    else
      match TradeBalances(w, db.balances, db.trades[id])
      case None => Refuse(db, InsufficientBalance)
      case Some(b) =>
        Result(db.(balances := b,
                   ledger := TradeLedger(db.ledger, id, db.trades[id]),
                   trades := db.trades[id := db.trades[id].(settled := true)]), Done)
  }

  // ---------------------------------------------------------------
  // Intent status after settlement
  // ---------------------------------------------------------------

  ghost function FilledOf(i: Id): (Id, Fill) -> int {
    (k: Id, f: Fill) => if f.intent == i then f.filledQty else 0
  }

  ghost function SettledOf(i: Id): (Id, Fill) -> int {
    (k: Id, f: Fill) => if f.intent == i && f.settled then f.filledQty else 0
  }

  ghost function FilledQty(fills: map<Id, Fill>, i: Id): int { SumMap(fills, FilledOf(i)) }

  ghost function SettledQty(fills: map<Id, Fill>, i: Id): int { SumMap(fills, SettledOf(i)) }

  /** `compute_intent_status` */
  ghost function ComputeStatus(db: Db, i: Id): IntentStatus
    requires i in db.intents
  {
    if !HasFills(db.fills, i) then Failed
    else if SettledQty(db.fills, i) >= db.intents[i].amountIn then Completed
    else if SettledQty(db.fills, i) > 0 then PartiallyFilled
    else Executing
  }

  /** `update_intent_status` of the settlement worker. */
  ghost function UpdateStatus(db: Db, i: Id): Db {
    if i !in db.intents then db
    else if SettledQty(db.fills, i) >= db.intents[i].amountIn then SetStatus(db, i, Completed)
    else if SettledQty(db.fills, i) > 0 then SetStatus(db, i, PartiallyFilled)
    else db
  }

  /** One delivery of an execution event; deliveries can repeat and come in any order. */
  ghost function ProcessEvent(w: Width, db: Db, f: Id, i: Id, buyer: Account, seller: Account,
                              tokenIn: Token, tokenOut: Token, rate: real): Result {
    if tokenIn.Unknown? || tokenOut.Unknown? then Result(db, Skipped)
    else
      var r := SettleFill(w, db, f, buyer, seller, tokenIn.asset, tokenOut.asset, rate);
      if r.outcome.Done? || r.outcome == Rejected(AlreadySettled) then Result(UpdateStatus(r.db, i), r.outcome)
      else r
  }

  /** Settle the queried fills one transaction at a time; a failing one does not stop the others. */
  function SettleEach(w: Width, db: Db, rows: seq<Id>, buyer: Account, seller: Account,
                      assetIn: Asset, assetOut: Asset, rate: real): Db
    decreases |rows|
  {
    if rows == [] then db
    else SettleEach(w, SettleFill(w, db, rows[0], buyer, seller, assetIn, assetOut, rate).db, rows[1..],
                    buyer, seller, assetIn, assetOut, rate)
  }

  ghost function SettleIntentFills(w: Width, db: Db, i: Id, rows: seq<Id>, buyer: Account, seller: Account,
                                   assetIn: Asset, assetOut: Asset, rate: real): Result {
    var settled := SettleEach(w, db, rows, buyer, seller, assetIn, assetOut, rate);
    if i !in settled.intents then Refuse(settled, StorageError)
    else Result(SetStatus(settled, i, ComputeStatus(settled, i)), Done)
  }
}
