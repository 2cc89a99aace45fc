/** Range: under the lock-accounting contracts no balance goes negative, and while the net deposits of each asset
    fit in i64 the machine's wrapping sums never differ from the exact ones. */
module Range {
  import opened Accounting
  import opened Exchange
  import opened Runs
  import opened Conservation
  import opened Locks

  // ---------------------------------------------------------------
  // No balance goes negative
  // ---------------------------------------------------------------

  ghost predicate Solvent(b: Balances) { forall k :: k in b ==> 0 <= b[k].available }

  predicate ValidTrade(t: Trade) {
    0 <= t.amountIn && 0 <= t.amountOut && 0 <= t.platformFee && 0 <= t.solverFee && t.platformFee + t.solverFee <= t.amountIn
  }

  ghost predicate TradesValid(db: Db) { forall id :: id in db.trades ==> ValidTrade(db.trades[id]) }

  ghost predicate RangeInv(db: Db) { Solvent(db.balances) && TradesValid(db) }

  /** Fee rates are at most one, and trades are created with sensible amounts. */
  ghost predicate RangeContract(s: Step) {
    s.OnSettle? ==>
      && (s.s.EventCall? || s.s.SettleIntentCall? ==> 0.0 <= s.s.rate <= 1.0)
      && (s.s.NewTradeCall? ==> ValidTrade(s.s.trade))
  }

  lemma CreditSolvent(b: Balances, acct: Account, asset: Asset, amount: int)
    requires Solvent(b)
    ensures 0 <= amount ==> Solvent(Credit(Exact, b, acct, asset, amount))
    ensures Debit(Exact, b, acct, asset, amount).Some? ==> Solvent(Debit(Exact, b, acct, asset, amount).value)
    ensures Solvent(Touch(b, acct, asset))
  {
  }

  lemma ShiftSolvent(b: Balances, acct: Account, asset: Asset, dAvailable: int, dLocked: int)
    requires Solvent(b) && 0 <= Row(b, acct, asset).available + dAvailable
    ensures var r := Shift(Exact, b, acct, asset, dAvailable, dLocked); r.Some? && Solvent(r.value)
  {
  }

  lemma SwapSolvent(b: Balances, buyer: Account, seller: Account, assetIn: Asset, assetOut: Asset, receives: int, out: int)
    requires Solvent(b) && 0 <= receives && 0 <= out && Swap(Exact, b, buyer, seller, assetIn, assetOut, receives, out).Some?
    ensures Solvent(Swap(Exact, b, buyer, seller, assetIn, assetOut, receives, out).value)
  {
    hide Solvent, Row;
    var b1 := Credit(Exact, b, seller, assetIn, receives);
    CreditSolvent(b, seller, assetIn, receives);
    CreditSolvent(b1, buyer, assetOut, out);
    CreditSolvent(Credit(Exact, b1, buyer, assetOut, out), seller, assetOut, out);
  }

  lemma PayOutSolvent(b: Balances, buyer: Account, seller: Account, solver: Account, assetIn: Asset, assetOut: Asset,
                      receives: int, out: int, platformFee: int, solverFee: int)
    requires Solvent(b) && 0 <= receives && 0 <= out
    requires PayOut(Exact, b, buyer, seller, solver, assetIn, assetOut, receives, out, platformFee, solverFee).Some?
    ensures Solvent(PayOut(Exact, b, buyer, seller, solver, assetIn, assetOut, receives, out, platformFee, solverFee).value)
  {
    hide Solvent, Row, Swap;
    SwapSolvent(b, buyer, seller, assetIn, assetOut, receives, out);
    var b1 := Swap(Exact, b, buyer, seller, assetIn, assetOut, receives, out).value;
    CreditSolvent(b1, PLATFORM, assetIn, platformFee);
    CreditSolvent(CreditFee(Exact, b1, PLATFORM, assetIn, platformFee), solver, assetIn, solverFee);
  }

  lemma ChargeAndPaySolvent(b: Balances, buyer: Account, seller: Account, solver: Account, assetIn: Asset, assetOut: Asset,
                            paid: int, out: int, fee: int, solverFee: int)
    requires Solvent(b) && 0 <= paid - fee && 0 <= out
    requires ChargeAndPay(Exact, b, buyer, seller, solver, assetIn, assetOut, paid, out, fee, solverFee).Some?
    ensures Solvent(ChargeAndPay(Exact, b, buyer, seller, solver, assetIn, assetOut, paid, out, fee, solverFee).value)
  {
    hide PayOut;
    assert 0 <= Row(b, buyer, assetIn).available;
    hide Solvent, Row;
    ShiftSolvent(b, buyer, assetIn, 0, -paid);
    PayOutSolvent(UnlockAndDebit(Exact, b, buyer, assetIn, paid).value, buyer, seller, solver, assetIn, assetOut,
                  paid - fee, out, fee - solverFee, solverFee);
  }

  lemma SettleFillSolvent(db: Db, f: Id, buyer: Account, seller: Account, assetIn: Asset, assetOut: Asset, rate: real)
    requires RangeInv(db) && FillsPositive(db) && 0.0 <= rate <= 1.0
    ensures var db' := SettleFill(Exact, db, f, buyer, seller, assetIn, assetOut, rate).db; RangeInv(db') && FillsPositive(db')
  {
    var r := SettleFill(Exact, db, f, buyer, seller, assetIn, assetOut, rate);
    if r.outcome.Done? {
      var fill := db.fills[f];
      var fee := TotalFee(fill.filledQty, rate);
      FeeSplit(fill.filledQty, rate);
      ChargeAndPaySolvent(db.balances, buyer, seller, SolverAccount(db, fill.solver), assetIn, assetOut,
                          fill.filledQty, fill.qty, fee, SolverFee(fee));
    }
  }

  lemma {:induction false} SettleEachSolvent(db: Db, rows: seq<Id>, buyer: Account, seller: Account,
                                             assetIn: Asset, assetOut: Asset, rate: real)
    requires RangeInv(db) && FillsPositive(db) && 0.0 <= rate <= 1.0
    ensures RangeInv(SettleEach(Exact, db, rows, buyer, seller, assetIn, assetOut, rate))
    decreases |rows|
  {
    if rows != [] {
      SettleFillSolvent(db, rows[0], buyer, seller, assetIn, assetOut, rate);
      SettleEachSolvent(SettleFill(Exact, db, rows[0], buyer, seller, assetIn, assetOut, rate).db, rows[1..],
                        buyer, seller, assetIn, assetOut, rate);
    }
  }

  lemma TradeSolvent(b: Balances, t: Trade)
    requires Solvent(b) && ValidTrade(t) && TradeBalances(Exact, b, t).Some?
    ensures Solvent(TradeBalances(Exact, b, t).value)
  {
    hide Swap, Solvent, Row;
    var receives := t.amountIn - t.platformFee - t.solverFee;
    CreditSolvent(b, t.buyer, t.assetIn, t.amountIn);
    var b0 := Debit(Exact, b, t.buyer, t.assetIn, t.amountIn).value;
    SwapSolvent(b0, t.buyer, t.seller, t.assetIn, t.assetOut, receives, t.amountOut);
    var b1 := Swap(Exact, b0, t.buyer, t.seller, t.assetIn, t.assetOut, receives, t.amountOut).value;
    CreditSolvent(b1, PLATFORM, t.assetIn, t.platformFee);
    CreditSolvent(Credit(Exact, b1, PLATFORM, t.assetIn, t.platformFee), t.solver, t.assetIn, t.solverFee);
  }

  lemma SettleCallRange(db: Db, c: SettleCall)
    requires RangeInv(db) && FillsPositive(db) && RangeContract(OnSettle(c))
    ensures RangeInv(ApplySettle(Exact, db, c).db)
  {
    hide Solvent, SettleFill, SettleEach, SettledQty;
    match c {
      case EventCall(f, i, buyer, seller, tokenIn, tokenOut, rate) =>
        if tokenIn.Known? && tokenOut.Known? {
          SettleFillSolvent(db, f, buyer, seller, tokenIn.asset, tokenOut.asset, rate);
        }
      case SettleIntentCall(i, rows, buyer, seller, assetIn, assetOut, rate) =>
        SettleEachSolvent(db, rows, buyer, seller, assetIn, assetOut, rate);
      case NewTradeCall(_) =>
      case SettleTradeCall(id) =>
        if SettleTrade(Exact, db, id).outcome.Done? { TradeSolvent(db.balances, db.trades[id]); }
    }
  }

  lemma BalanceCallRange(db: Db, c: BalanceCall)
    requires RangeInv(db) && BalanceContract(c)
    ensures RangeInv(ApplyBalance(Exact, db, c).db)
  {
    match c {
      case DepositCall(acct, asset, amount) => CreditSolvent(db.balances, acct, asset, amount);
      case WithdrawCall(acct, asset, amount) => CreditSolvent(db.balances, acct, asset, amount);
      case TransferCall(from, to, asset, amount) =>
        TransferSolvent(db.balances, from, to, asset, amount);
        hide MoveRows, Touch, Solvent, DoubleEntry;
    }
  }

  lemma TransferSolvent(b: Balances, from: Account, to: Account, asset: Asset, amount: int)
    requires Solvent(b)
    ensures var b' := Touch(b, from, asset);
            && Solvent(b')
            && (0 < amount <= Row(b', from, asset).available ==> Solvent(MoveRows(Exact, b', from, to, asset, amount)))
  {
    CreditSolvent(b, from, asset, amount);
  }

  lemma IntentCallRange(db: Db, o: Origin, c: IntentCall)
    requires RangeInv(db) && LockInv(db, o) && IntentContract(db, o, c)
    ensures RangeInv(ApplyIntent(Exact, db, c).db)
  {
    hide FilledQty, LocksMatch;
    match c {
      case CreateCall(acct, tokenIn, _, amountIn, _, _, _) =>
        var amount := AsI64(amountIn);
        if tokenIn.Known? && Row(db.balances, acct, tokenIn.asset).available >= amount {
          ShiftSolvent(db.balances, acct, tokenIn.asset, -amount, amount);
        }
      case AmendCall(i, acct, newAmountIn, newMinAmountOut, newLimitPrice) =>
        if i in db.intents {
          assert IntentRow(db, o, i);
          var diff := AmendDiff(Exact, db.intents[i], newAmountIn);
          if diff <= Row(db.balances, acct, db.intents[i].tokenIn.asset).available {
            ShiftSolvent(db.balances, acct, db.intents[i].tokenIn.asset, -diff, diff);
          }
        }
      case ReleaseCall(i, acct, _) => if i in db.intents { UnlockSolvent(db, o, i, acct); }
      case ExpireCall(i, found) => if i in db.intents && found.Some? { UnlockSolvent(db, o, i, found.value); }
    }
  }

  lemma UnlockSolvent(db: Db, o: Origin, i: Id, acct: Account)
    requires Solvent(db.balances) && Shape(db, o) && i in db.intents
    ensures db.intents[i].tokenIn.Known?
    ensures var t := db.intents[i];
            var r := Shift(Exact, db.balances, acct, t.tokenIn.asset, t.amountIn, -t.amountIn); r.Some? && Solvent(r.value)
  {
    assert IntentRow(db, o, i);
    ShiftSolvent(db.balances, acct, db.intents[i].tokenIn.asset, db.intents[i].amountIn, -db.intents[i].amountIn);
  }

  lemma StepRange(db: Db, o: Origin, s: Step)
    requires RangeInv(db) && LockInv(db, o) && Contract(db, o, s) && RangeContract(s)
    ensures RangeInv(Apply(Exact, db, s).db)
  {
    match s {
      case OnBalance(c) => BalanceCallRange(db, c);
      case OnIntent(c) => IntentCallRange(db, o, c);
      case OnAuction(c) => AuctionCallTables(db, c); AuctionCallTrades(db, c);
      case OnSettle(c) => ShapeFillsPositive(db, o); SettleCallRange(db, c);
    }
  }

  lemma AuctionCallTrades(db: Db, c: AuctionCall)
    ensures ApplyAuction(db, c).db.trades == db.trades
  {
    match c {
      case BidCall(_, _, _) =>
      case BeginCall(_) =>
      case CloseCall(i) => 
      case ExecuteCall(_) =>
    }
  }

  lemma ShapeFillsPositive(db: Db, o: Origin)
    requires Shape(db, o)
    ensures FillsPositive(db)
  {
    assert forall f :: f in db.fills ==> FillRow(db, o, f);
  }

  ghost predicate InRange(steps: seq<Step>) { forall i :: 0 <= i < |steps| ==> RangeContract(steps[i]) }

  ghost predicate NonNegative(b: Balances) { forall k :: k in b ==> 0 <= b[k].available && 0 <= b[k].locked }

  lemma {:induction false} RangeHolds(solverAccounts: map<string, Account>, steps: seq<Step>)
    requires Obeys(Start(solverAccounts), steps) && InRange(steps)
    ensures RangeInv(Run(Exact, Start(solverAccounts), steps).db)
  {
    if steps != [] {
      var init := steps[..|steps| - 1];
      RangeHolds(solverAccounts, init);
      LockAccounting(solverAccounts, init);
      var y := Run(Exact, Start(solverAccounts), init);
      StepRange(y.db, y.h.origin, steps[|steps| - 1]);
    }
  }

  /** In every run no available and no locked balance is ever negative. */
  lemma NoNegativeBalance(solverAccounts: map<string, Account>, steps: seq<Step>)
    requires Obeys(Start(solverAccounts), steps) && InRange(steps)
    ensures NonNegative(Run(Exact, Start(solverAccounts), steps).db.balances)
  {
    var x := Run(Exact, Start(solverAccounts), steps);
    RangeHolds(solverAccounts, steps);
    LockAccounting(solverAccounts, steps);
    LockedRows(x.db, x.h.origin);
  }

  lemma LockedRows(db: Db, o: Origin)
    requires Solvent(db.balances) && LockInv(db, o)
    ensures NonNegative(db.balances)
  {
    forall k | k in db.balances ensures 0 <= db.balances[k].locked {
      LockedNonNegative(db, o, k.0, k.1);
      assert k == (k.0, k.1);
    }
  }
}
