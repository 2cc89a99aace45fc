/** The services as they run: rows are updated one statement at a time inside a transaction, on copies that are
    written back only by the commit. Every method is proved to do what its function in `Exchange` says, on i64
    values, so a call that fails at any statement leaves all tables as they were. */
module Service {
  import opened Prelude
  import opened Sums
  import opened Auction
  import opened Accounting
  import opened Exchange

  // ---------------------------------------------------------------
  // Statements of a transaction
  // ---------------------------------------------------------------

  method FindOrCreate(b: Balances, acct: Account, asset: Asset) returns (b': Balances, row: Balance)
    ensures b' == Touch(b, acct, asset) && row == Row(b, acct, asset)
  {
    if (acct, asset) in b { return b, b[(acct, asset)]; }
    row := Balance(0, 0);
    b' := b[(acct, asset) := row];
  }

  method CreditBalance(b: Balances, acct: Account, asset: Asset, amount: int) returns (b': Balances)
    ensures b' == Credit(Bits64, b, acct, asset, amount)
  {
    var row;
    b', row := FindOrCreate(b, acct, asset);
    b' := b'[(acct, asset) := row.(available := Wrap64(row.available + amount))];
  }

  method DebitBalance(b: Balances, acct: Account, asset: Asset, amount: int) returns (r: Option<Balances>)
    ensures r == Debit(Bits64, b, acct, asset, amount)
  {
    var b', row := FindOrCreate(b, acct, asset);
    if row.available < amount { return None; }
    assert b'[(acct, asset) := row.(available := Wrap64(row.available - amount))]
           == b[(acct, asset) := row.(available := Wrap64(row.available - amount))];
    return Some(b'[(acct, asset) := row.(available := Wrap64(row.available - amount))]);
  }

  /** The balance statements of `settle_fill`, up to the first one that fails. */
  method MoveFill(b: Balances, buyer: Account, seller: Account, solver: Account, assetIn: Asset, assetOut: Asset,
                  paid: int, out: int, totalFee: int, solverFee: int) returns (r: Option<Balances>)
    ensures r == ChargeAndPay(Bits64, b, buyer, seller, solver, assetIn, assetOut, paid, out, totalFee, solverFee)
  {
    hide Credit, Debit, Shift;
    var charged := UnlockAndDebit(Bits64, b, buyer, assetIn, paid);
    if charged.None? { return None; }
    var tx := CreditBalance(charged.value, seller, assetIn, paid - totalFee);
    tx := CreditBalance(tx, buyer, assetOut, out);
    var debited := DebitBalance(tx, seller, assetOut, out);
    if debited.None? { return None; }
    tx := debited.value;
    if totalFee - solverFee > 0 { tx := CreditBalance(tx, PLATFORM, assetIn, totalFee - solverFee); }
    if solverFee > 0 { tx := CreditBalance(tx, solver, assetIn, solverFee); }
    return Some(tx);
  }

  method PostSwapRows(l: seq<Entry>, buyer: Account, seller: Account, assetIn: Asset, assetOut: Asset,
                      paid: int, receives: int, out: int, reference: Id) returns (log: seq<Entry>)
    ensures log == PostSwap(l, buyer, seller, assetIn, assetOut, paid, receives, out, reference)
  {
    log := l;
    log := log + [Entry(buyer, assetIn, paid, CREDIT, TRADE, reference)];
    log := log + [Entry(buyer, assetOut, out, DEBIT, TRADE, reference)];
    log := log + [Entry(seller, assetIn, receives, DEBIT, TRADE, reference)];
    log := log + [Entry(seller, assetOut, out, CREDIT, TRADE, reference)];
  }

  lemma MoveRowsAre(b: Balances, from: Account, to: Account, asset: Asset, amount: int, b': Balances)
    requires var source, target := Row(b, from, asset), Row(b, to, asset);
             b' == Touch(b, to, asset)[(from, asset) := source.(available := Wrap64(source.available - amount))]
                                      [(to, asset) := target.(available := Wrap64(target.available + amount))]
    ensures b' == MoveRows(Bits64, b, from, to, asset, amount)
  {
  }

  method SettledTotal(fills: map<Id, Fill>, i: Id) returns (sum: int, any: bool)
    ensures sum == SettledQty(fills, i) && any == HasFills(fills, i)
  {
    sum, any := 0, false;
    var rest := fills;
    while rest != map[]
      invariant rest.Keys <= fills.Keys && forall f :: f in rest ==> rest[f] == fills[f]
      invariant sum + SettledQty(rest, i) == SettledQty(fills, i)
      invariant any <==> exists f :: f in fills && f !in rest && fills[f].intent == i
      decreases rest.Keys
    {
      hide SumMap;
      var f :| f in rest;
      SumRemove(rest, SettledOf(i), f);
      if rest[f].intent == i {
        any := true;
        if rest[f].settled { sum := sum + rest[f].filledQty; }
      }
      rest := rest - {f};
    }
  }

  // ---------------------------------------------------------------
  // The tables
  // ---------------------------------------------------------------

  class Store {
    var balances: Balances
    var ledger: seq<Entry>
    var intents: map<Id, Intent>
    var bids: map<Id, seq<Bid>>
    var fills: map<Id, Fill>
    var trades: map<Id, Trade>
    var nextId: Id
    const solverAccounts: map<string, Account>

    function View(): Db
      reads this
    {
      Db(balances, ledger, intents, bids, fills, trades, solverAccounts, nextId)
    }

    constructor (solverAccounts: map<string, Account>)
      ensures View() == Db(map[], [], map[], map[], map[], map[], solverAccounts, 0)
    {
      balances, ledger, intents, bids := map[], [], map[], map[];
      fills, trades, nextId := map[], map[], 0;
      this.solverAccounts := solverAccounts;
    }

    // -------------------------------------------------------------
    // Balance service
    // -------------------------------------------------------------

    method DepositFunds(acct: Account, asset: Asset, amount: int) returns (outcome: Outcome)
      modifies this
      ensures Result(View(), outcome) == Deposit(Bits64, old(View()), acct, asset, amount)
    {
      if amount <= 0 { return Rejected(InvalidAmount); }
      balances := CreditBalance(balances, acct, asset, amount);
      ledger := ledger + [Entry(acct, asset, amount, DEBIT, DEPOSIT, nextId)];
      nextId := nextId + 1;
      return Done;
    }

    method WithdrawFunds(acct: Account, asset: Asset, amount: int) returns (outcome: Outcome)
      modifies this
      ensures Result(View(), outcome) == Withdraw(Bits64, old(View()), acct, asset, amount)
    {
      if amount <= 0 { return Rejected(InvalidAmount); }
      var row;
      balances, row := FindOrCreate(balances, acct, asset);
      if row.available < amount { return Rejected(InsufficientBalance); }
      balances := balances[(acct, asset) := row.(available := Wrap64(row.available - amount))];
      ledger := ledger + [Entry(acct, asset, amount, CREDIT, WITHDRAWAL, nextId)];
      nextId := nextId + 1;
      return Done;
    }

    method LockFunds(acct: Account, asset: Asset, amount: int) returns (outcome: Outcome)
      modifies this
      ensures Result(View(), outcome) == LockBalance(Bits64, old(View()), acct, asset, amount)
    {
      if amount <= 0 { return Rejected(InvalidAmount); }
      var row;
      balances, row := FindOrCreate(balances, acct, asset);
      if row.available < amount { return Rejected(InsufficientBalance); }
      row := row.(available := Wrap64(row.available - amount));
      row := row.(locked := Wrap64(row.locked + amount));
      balances := balances[(acct, asset) := row];
      return Done;
    }

    method UnlockFunds(acct: Account, asset: Asset, amount: int) returns (outcome: Outcome)
      modifies this
      ensures Result(View(), outcome) == UnlockBalance(Bits64, old(View()), acct, asset, amount)
    {
      if amount <= 0 { return Rejected(InvalidAmount); }
      var row;
      balances, row := FindOrCreate(balances, acct, asset);
      if row.locked < amount { return Rejected(InsufficientLockedBalance); }
      row := row.(locked := Wrap64(row.locked - amount));
      row := row.(available := Wrap64(row.available + amount));
      balances := balances[(acct, asset) := row];
      return Done;
    }

    method TransferFunds(from: Account, to: Account, asset: Asset, amount: int) returns (outcome: Outcome)
      modifies this
      ensures Result(View(), outcome) == Transfer(Bits64, old(View()), from, to, asset, amount)
    {
      hide MoveRows;
      if amount <= 0 { return Rejected(InvalidAmount); }
      var source, target;
      balances, source := FindOrCreate(balances, from, asset);
      if source.available < amount { return Rejected(InsufficientBalance); }
      ghost var touched := balances;
      balances, target := FindOrCreate(balances, to, asset);
      source := source.(available := Wrap64(source.available - amount));
      target := target.(available := Wrap64(target.available + amount));
      balances := balances[(from, asset) := source];
      balances := balances[(to, asset) := target];
      MoveRowsAre(touched, from, to, asset, amount, balances);
      ledger := ledger + [Entry(from, asset, amount, DEBIT, TRADE, nextId)];
      ledger := ledger + [Entry(to, asset, amount, CREDIT, TRADE, nextId)];
      nextId := nextId + 1;
      return Done;
    }

    // -------------------------------------------------------------
    // Intent service
    // -------------------------------------------------------------

    method Create(acct: Account, tokenIn: Token, tokenOut: Token, amountIn: nat, minAmountOut: nat,
                  riskOk: bool, minOrderSize: int) returns (outcome: Outcome)
      modifies this
      ensures Result(View(), outcome)
              == CreateIntent(Bits64, old(View()), acct, tokenIn, tokenOut, amountIn, minAmountOut, riskOk, minOrderSize)
    {
      var amount := Wrap64(amountIn);
      if !riskOk || amount < minOrderSize { return Rejected(RiskRejected); }
      if tokenIn.Unknown? { return Rejected(InvalidAsset); }
      var available := if (acct, tokenIn.asset) in balances then balances[(acct, tokenIn.asset)].available else 0;
      if available < amount { return Rejected(InsufficientBalance); }
      var updated := Shift(Bits64, balances, acct, tokenIn.asset, -amount, amount);
      if updated.None? { return Rejected(StorageError); }
      balances := updated.value;
      intents := intents[nextId := Intent(tokenIn, tokenOut, amount, Wrap64(minAmountOut), Open, Market, None)];
      nextId := nextId + 1;
      return Done;
    }

    method Amend(i: Id, acct: Account, newAmountIn: Option<nat>, newMinAmountOut: Option<nat>, newLimitPrice: Option<int>)
      returns (outcome: Outcome)
      modifies this
      ensures Result(View(), outcome)
              == AmendIntent(Bits64, old(View()), i, acct, newAmountIn, newMinAmountOut, newLimitPrice)
    {
      if i !in intents { return Rejected(IntentNotFound); }
      var intent := intents[i];
      if intent.status != Open && intent.status != Bidding { return Rejected(NotAmendable); }
      if intent.tokenIn.Unknown? { return Rejected(InvalidAsset); }
      var asset := intent.tokenIn.asset;
      var amount := if newAmountIn.Some? then Wrap64(newAmountIn.value) else intent.amountIn;
      var diff := Wrap64(amount - intent.amountIn);
      var tx := balances;
      if diff > 0 {
        var available := if (acct, asset) in tx then tx[(acct, asset)].available else 0;
        if available < diff { return Rejected(InsufficientBalance); }
        var updated := Shift(Bits64, tx, acct, asset, -diff, diff);
        if updated.None? { return Rejected(StorageError); }
        tx := updated.value;
      } else if diff < 0 {
        var unlocked := Wrap64(-diff);
        var updated := Shift(Bits64, tx, acct, asset, unlocked, -unlocked);
        if updated.None? { return Rejected(StorageError); }
        tx := updated.value;
      }
      var minAmountOut := if newMinAmountOut.Some? then Wrap64(newMinAmountOut.value) else intent.minAmountOut;
      var limitPrice := if newLimitPrice.Some? then newLimitPrice else intent.limitPrice;
      balances := tx;
      intents := intents[i := intent.(amountIn := amount, minAmountOut := minAmountOut, limitPrice := limitPrice, status := Open)];
      return Done;
    }

    /** `cancel_intent` and `fail_intent`, which differ only in the status they write. */
    method Release(i: Id, acct: Account, status: IntentStatus) returns (outcome: Outcome)
      modifies this
      ensures Result(View(), outcome) == ReleaseIntent(Bits64, old(View()), i, acct, status)
    {
      if i !in intents { return Skipped; }
      var intent := intents[i];
      if intent.tokenIn.Unknown? { return Rejected(InvalidAsset); }
      var updated := Shift(Bits64, balances, acct, intent.tokenIn.asset, intent.amountIn, -intent.amountIn);
      if updated.None? { return Rejected(StorageError); }
      balances := updated.value;
      intents := intents[i := intent.(status := status)];
      return Done;
    }

    method Expire(i: Id, found: Option<Account>) returns (outcome: Outcome)
      modifies this
      ensures Result(View(), outcome) == ExpireIntent(Bits64, old(View()), i, found)
    {
      if i !in intents { return Skipped; }
      var intent := intents[i];
      if intent.status != Open && intent.status != Bidding { return Skipped; }
      var marked := intents[i := intent.(status := Expired)];
      if found.Some? && intent.tokenIn.Known? {
        var key := (found.value, intent.tokenIn.asset);
        if key in balances && balances[key].locked >= intent.amountIn {
          var updated := Shift(Bits64, balances, found.value, intent.tokenIn.asset, intent.amountIn, -intent.amountIn);
          if updated.None? { return Rejected(StorageError); }
          balances := updated.value;
        }
      }
      intents := marked;
      return Done;
    }

    // -------------------------------------------------------------
    // Auction
    // -------------------------------------------------------------

    method Close(i: Id) returns (outcome: Outcome)
      modifies this
      ensures Result(View(), outcome) == CloseAuction(old(View()), i)
    {
      hide SortBids, FilterBids;
      if i !in intents { return Skipped; }
      var intent := intents[i];
      var sorted := SortBids(if i in bids then bids[i] else []);
      var accepted := FilterBids(intent.orderType, intent.limitPrice, sorted);
      assert accepted == AcceptedBids(View(), i);
      if accepted == [] {
        intents := intents[i := intent.(status := Failed)];
        return Done;
      }
      hide GenerateFills;
      var drafts := GeneratePartialFills(intent.amountIn, accepted);
      var total := 0;
      ghost var firstId, before := nextId, fills;
      for k := 0 to |drafts|
        invariant nextId == firstId + k
        invariant InsertFills(fills, i, drafts[k..], nextId) == InsertFills(before, i, drafts, firstId)
        invariant total + TotalFilled(drafts[k..]) == TotalFilled(drafts)
        invariant balances == old(balances) && ledger == old(ledger) && intents == old(intents)
        invariant bids == old(bids) && trades == old(trades)
      {
        var d := drafts[k];
        assert drafts[k..][0] == d && drafts[k..][1..] == drafts[k + 1..];
        fills := fills[nextId := Fill(i, d.solver, d.price, d.qty, d.filledQty, false)];
        nextId := nextId + 1;
        total := total + d.filledQty;
      }
      var status := if total >= intent.amountIn then Matched else PartiallyFilled;
      intents := intents[i := intent.(status := status)];
      return Done;
    }

    method Submit(i: Id, bid: Bid, riskOk: bool) returns (outcome: Outcome)
      modifies this`bids
      ensures Result(View(), outcome) == SubmitBid(old(View()), i, bid, riskOk)
    {
      if i !in intents { return Rejected(IntentNotFound); }
      if !riskOk { return Rejected(RiskRejected); }
      bids := bids[i := (if i in bids then bids[i] else []) + [bid]];
      return Done;
    }

    method Begin(i: Id) returns (outcome: Outcome)
      modifies this`intents
      ensures Result(View(), outcome) == BeginAuction(old(View()), i)
    {
      if i !in intents { return Skipped; }
      intents := intents[i := intents[i].(status := Bidding)];
      return Done;
    }

    /** The status write of `execute_fills`. */
    method Execute(i: Id) returns (outcome: Outcome)
      modifies this`intents
      ensures Result(View(), outcome) == StartExecution(old(View()), i)
    {
      var _, any := SettledTotal(fills, i);
      if !any || i !in intents { return Skipped; }
      intents := intents[i := intents[i].(status := Executing)];
      return Done;
    }

    // -------------------------------------------------------------
    // Settlement
    // -------------------------------------------------------------

    method NewTrade(t: Trade) returns (outcome: Outcome)
      modifies this`trades, this`nextId
      ensures Result(View(), outcome) == CreateTrade(old(View()), t)
    {
      trades := trades[nextId := t.(settled := false)];
      nextId := nextId + 1;
      return Done;
    }

    method Settle(f: Id, buyer: Account, seller: Account, assetIn: Asset, assetOut: Asset, rate: real)
      returns (outcome: Outcome)
      modifies this`balances, this`ledger, this`fills
      ensures Result(View(), outcome) == SettleFill(Bits64, old(View()), f, buyer, seller, assetIn, assetOut, rate)
      ensures outcome.Rejected? ==> View() == old(View())
    {
      hide ChargeAndPay, PostSwap, TotalFee, SolverFee;
      if f !in fills { return Rejected(FillNotFound); }
      var fill := fills[f];
      if fill.settled { return Rejected(AlreadySettled); }
      var amount := fill.filledQty;
      var totalFee := TotalFee(amount, rate);
      var solverFee := SolverFee(totalFee);
      var solver := if fill.solver in solverAccounts then solverAccounts[fill.solver] else PLATFORM;
      var moved := MoveFill(balances, buyer, seller, solver, assetIn, assetOut, amount, fill.qty, totalFee, solverFee);
      if moved.None? { return Rejected(InsufficientBalance); }
      var log := PostSwapRows(ledger, buyer, seller, assetIn, assetOut, amount, amount - totalFee, fill.qty, f);
      if totalFee - solverFee > 0 { log := log + [Entry(PLATFORM, assetIn, totalFee - solverFee, DEBIT, FEE, f)]; }
      if solverFee > 0 { log := log + [Entry(PLATFORM, assetIn, solverFee, DEBIT, FEE, f)]; }
      balances, ledger, fills := moved.value, log, fills[f := fill.(settled := true)];
      return Done;
    }

    method SettleOneTrade(id: Id) returns (outcome: Outcome)
      modifies this
      ensures Result(View(), outcome) == SettleTrade(Bits64, old(View()), id)
      ensures outcome.Rejected? ==> View() == old(View())
    {
      hide Credit, Debit, PostSwap;
      if id !in trades { return Rejected(TradeNotFound); }
      var t := trades[id];
      if t.settled { return Rejected(AlreadySettled); }
      var receives := t.amountIn - t.platformFee - t.solverFee;

      var paid := DebitBalance(balances, t.buyer, t.assetIn, t.amountIn);
      if paid.None? { return Rejected(InsufficientBalance); }
      var tx := paid.value;
      tx := CreditBalance(tx, t.seller, t.assetIn, receives);
      tx := CreditBalance(tx, t.buyer, t.assetOut, t.amountOut);
      var debited := DebitBalance(tx, t.seller, t.assetOut, t.amountOut);
      if debited.None? { return Rejected(InsufficientBalance); }
      tx := debited.value;
      tx := CreditBalance(tx, PLATFORM, t.assetIn, t.platformFee);
      tx := CreditBalance(tx, t.solver, t.assetIn, t.solverFee);

      var log := PostSwapRows(ledger, t.buyer, t.seller, t.assetIn, t.assetOut, t.amountIn, receives, t.amountOut, id);
      log := log + [Entry(PLATFORM, t.assetIn, t.platformFee, DEBIT, FEE, id)];
      log := log + [Entry(t.solver, t.assetIn, t.solverFee, DEBIT, FEE, id)];

      balances, ledger, trades := tx, log, trades[id := t.(settled := true)];
      return Done;
    }

    /** One transaction per queried fill: a failure is recorded and the loop goes on. */
    method SettleAll(i: Id, rows: seq<Id>, buyer: Account, seller: Account, assetIn: Asset, assetOut: Asset, rate: real)
      returns (outcome: Outcome)
      modifies this`balances, this`ledger, this`fills, this`intents
      ensures Result(View(), outcome)
              == SettleIntentFills(Bits64, old(View()), i, rows, buyer, seller, assetIn, assetOut, rate)
    {
      for k := 0 to |rows|
        invariant SettleEach(Bits64, View(), rows[k..], buyer, seller, assetIn, assetOut, rate)
                  == SettleEach(Bits64, old(View()), rows, buyer, seller, assetIn, assetOut, rate)
      {
        hide SettleFill;
        assert rows[k..][0] == rows[k] && rows[k..][1..] == rows[k + 1..];
        var _ := Settle(rows[k], buyer, seller, assetIn, assetOut, rate);
      }
      if i !in intents { return Rejected(StorageError); }
      var amount := intents[i].amountIn;
      var settled, any := SettledTotal(fills, i);
      var status :=
        if !any then Failed
        else if settled >= amount then Completed
        else if settled > 0 then PartiallyFilled
        else Executing;
      intents := intents[i := intents[i].(status := status)];
      return Done;
    }

    /** The settlement worker on one delivery. */
    method OnExecutionCompleted(f: Id, i: Id, buyer: Account, seller: Account, tokenIn: Token, tokenOut: Token, rate: real)
      returns (outcome: Outcome)
      modifies this`balances, this`ledger, this`fills, this`intents
      ensures Result(View(), outcome)
              == ProcessEvent(Bits64, old(View()), f, i, buyer, seller, tokenIn, tokenOut, rate)
    {
      if tokenIn.Unknown? || tokenOut.Unknown? { return Skipped; }
      outcome := Settle(f, buyer, seller, tokenIn.asset, tokenOut.asset, rate);
      if outcome != Done && outcome != Rejected(AlreadySettled) { return; }
      hide SettleFill;
      if i !in intents { return; }
      var settled, _ := SettledTotal(fills, i);
      if settled >= intents[i].amountIn {
        intents := intents[i := intents[i].(status := Completed)];
      } else if settled > 0 {
        intents := intents[i := intents[i].(status := PartiallyFilled)];
      }
    }
  }
}
