/** The machine stores sums as wrapped i64 values. While the net deposits of every asset fit in i64 it never shows:
    each call between distinct parties does on the machine exactly what it does with unbounded integers, although
    a settlement credits the buyer before it debits the seller. */
module Machine64 {
  import opened Prelude
  import opened Sums
  import opened Auction
  import opened Accounting
  import opened Exchange
  import opened Runs
  import opened Conservation
  import opened Locks
  import opened Range

  ghost predicate Bounded(b: Balances) { forall a :: Held(b, EVERYONE, a) <= I64_MAX }

  /** Every stored number is a non-negative i64. */
  ghost predicate FitsAll(b: Balances) {
    forall k :: k in b ==> 0 <= b[k].available <= I64_MAX && 0 <= b[k].locked <= I64_MAX
  }

  ghost predicate Good(b: Balances) { NonNegative(b) && Bounded(b) }

  /** A row holds no more than the whole table. */
  lemma RowWithinTotal(b: Balances, acct: Account, asset: Asset)
    requires NonNegative(b)
    ensures Row(b, acct, asset).available + Row(b, acct, asset).locked <= Held(b, EVERYONE, asset)
  {
    hide SumMap;
    if (acct, asset) in b {
      SumAtLeast(b, Holding(EVERYONE, asset), (acct, asset));
    } else {
      SumNonNegative(b, Holding(EVERYONE, asset));
    }
  }

  lemma TwoRowsWithinTotal(b: Balances, x: Account, y: Account, asset: Asset)
    requires NonNegative(b) && x != y
    ensures Row(b, x, asset).available + Row(b, y, asset).available <= Held(b, EVERYONE, asset)
  {
    hide SumMap;
    RowWithinTotal(b, x, asset);
    RowWithinTotal(b, y, asset);
    if (x, asset) in b && (y, asset) in b {
      SumAtLeastTwo(b, Holding(EVERYONE, asset), (x, asset), (y, asset));
    }
  }

  lemma GoodFits(b: Balances)
    requires Good(b)
    ensures FitsAll(b)
  {
    forall k | k in b ensures b[k].available <= I64_MAX && b[k].locked <= I64_MAX {
      RowWithinTotal(b, k.0, k.1);
      assert k == (k.0, k.1) && Held(b, EVERYONE, k.1) <= I64_MAX;
    }
  }

  // ---------------------------------------------------------------
  // A single write whose exact result fits is the same on the machine
  // ---------------------------------------------------------------

  lemma CreditSame(b: Balances, acct: Account, asset: Asset, amount: int)
    requires FitsAll(Credit(Exact, b, acct, asset, amount))
    ensures Credit(Bits64, b, acct, asset, amount) == Credit(Exact, b, acct, asset, amount)
  {
    assert Credit(Exact, b, acct, asset, amount)[(acct, asset)].available <= I64_MAX;
  }

  lemma DebitSame(b: Balances, acct: Account, asset: Asset, amount: int)
    requires Debit(Exact, b, acct, asset, amount).Some? ==> FitsAll(Debit(Exact, b, acct, asset, amount).value)
    ensures Debit(Bits64, b, acct, asset, amount) == Debit(Exact, b, acct, asset, amount)
  {
    var r := Debit(Exact, b, acct, asset, amount);
    if r.Some? { assert r.value[(acct, asset)].available <= I64_MAX; }
  }

  lemma ShiftSame(b: Balances, acct: Account, asset: Asset, dAvailable: int, dLocked: int)
    requires FitsAll(Shift(Exact, b, acct, asset, dAvailable, dLocked).value)
    ensures Shift(Bits64, b, acct, asset, dAvailable, dLocked) == Shift(Exact, b, acct, asset, dAvailable, dLocked)
  {
    if (acct, asset) in b {
      assert Shift(Exact, b, acct, asset, dAvailable, dLocked).value[(acct, asset)].available <= I64_MAX;
    }
  }

  lemma MoveSame(b: Balances, from: Account, to: Account, asset: Asset, amount: int)
    requires from != to && FitsAll(MoveRows(Exact, b, from, to, asset, amount))
    ensures MoveRows(Bits64, b, from, to, asset, amount) == MoveRows(Exact, b, from, to, asset, amount)
  {
    var b' := MoveRows(Exact, b, from, to, asset, amount);
    assert b'[(from, asset)].available <= I64_MAX && b'[(to, asset)].available <= I64_MAX;
  }

  // ---------------------------------------------------------------
  // Settlement
  // ---------------------------------------------------------------

  lemma CreditGood(b: Balances, acct: Account, asset: Asset, amount: int)
    requires NonNegative(b) && 0 <= amount
    ensures NonNegative(Credit(Exact, b, acct, asset, amount))
    ensures forall a :: Held(Credit(Exact, b, acct, asset, amount), EVERYONE, a)
                        == Held(b, EVERYONE, a) + if a == asset then amount else 0
  {
    forall a ensures Held(Credit(Exact, b, acct, asset, amount), EVERYONE, a)
                     == Held(b, EVERYONE, a) + if a == asset then amount else 0 {
      CreditHeld(b, acct, asset, amount, EVERYONE, a);
    }
  }

  lemma DebitGood(b: Balances, acct: Account, asset: Asset, amount: int)
    requires NonNegative(b) && 0 <= amount && Debit(Exact, b, acct, asset, amount).Some?
    ensures var b' := Debit(Exact, b, acct, asset, amount).value;
            NonNegative(b') && forall a :: Held(b', EVERYONE, a) == Held(b, EVERYONE, a) - if a == asset then amount else 0
  {
    var b' := Debit(Exact, b, acct, asset, amount).value;
    forall a ensures Held(b', EVERYONE, a) == Held(b, EVERYONE, a) - if a == asset then amount else 0 {
      DebitHeld(b, acct, asset, amount, EVERYONE, a);
    }
  }

  /** The middle of a swap, where the buyer has the outgoing asset and the seller still has it too: the total is over
      the net deposits for a moment, but the one row that grew is covered by the seller's. */
  lemma MiddleFits(b: Balances, buyer: Account, seller: Account, asset: Asset, out: int)
    requires Good(b) && 0 <= out <= Row(b, seller, asset).available && buyer != seller
    ensures FitsAll(Credit(Exact, b, buyer, asset, out))
  {
    GoodFits(b);
    TwoRowsWithinTotal(b, buyer, seller, asset);
    assert Held(b, EVERYONE, asset) <= I64_MAX;
    hide NonNegative, Bounded, Held;
  }

  lemma SwapSame(b: Balances, buyer: Account, seller: Account, assetIn: Asset, assetOut: Asset, receives: int, out: int)
    requires NonNegative(b) && 0 <= receives && 0 <= out && buyer != seller
    requires Good(Credit(Exact, b, seller, assetIn, receives))
    ensures Swap(Bits64, b, buyer, seller, assetIn, assetOut, receives, out)
            == Swap(Exact, b, buyer, seller, assetIn, assetOut, receives, out)
    ensures var r := Swap(Exact, b, buyer, seller, assetIn, assetOut, receives, out);
            r.Some? ==> (NonNegative(r.value) &&
                         forall a :: Held(r.value, EVERYONE, a) == Held(Credit(Exact, b, seller, assetIn, receives), EVERYONE, a))
  {
    var b1 := Credit(Exact, b, seller, assetIn, receives);
    GoodFits(b1);
    CreditSame(b, seller, assetIn, receives);
    SwapTail(b1, buyer, seller, assetOut, out);
  }

  lemma SwapTail(b: Balances, buyer: Account, seller: Account, asset: Asset, out: int)
    requires Good(b) && 0 <= out && buyer != seller
    ensures Debit(Bits64, Credit(Bits64, b, buyer, asset, out), seller, asset, out)
            == Debit(Exact, Credit(Exact, b, buyer, asset, out), seller, asset, out)
    ensures var r := Debit(Exact, Credit(Exact, b, buyer, asset, out), seller, asset, out);
            r.Some? ==> NonNegative(r.value) && forall a :: Held(r.value, EVERYONE, a) == Held(b, EVERYONE, a)
  {
    hide SumMap, Held;
    var b2 := Credit(Exact, b, buyer, asset, out);
    assert Row(b2, seller, asset) == Row(b, seller, asset) == Row(Credit(Bits64, b, buyer, asset, out), seller, asset);
    if out <= Row(b, seller, asset).available {
      MiddleFits(b, buyer, seller, asset, out);
      CreditSame(b, buyer, asset, out);
      CreditGood(b, buyer, asset, out);
      DebitGood(b2, seller, asset, out);
      var b3 := Debit(Exact, b2, seller, asset, out).value;
      assert Good(b3);
      GoodFits(b3);
      DebitSame(b2, seller, asset, out);
    }
  }

  /** Fees paid out of what the buyer lost keep the total within its bound. */
  lemma FeeSame(b: Balances, acct: Account, asset: Asset, fee: int)
    requires NonNegative(b) && 0 <= fee
    requires forall a :: Held(b, EVERYONE, a) + (if a == asset then fee else 0) <= I64_MAX
    ensures Credit(Bits64, b, acct, asset, fee) == Credit(Exact, b, acct, asset, fee)
    ensures CreditFee(Bits64, b, acct, asset, fee) == CreditFee(Exact, b, acct, asset, fee)
  {
    hide Held;
    CreditGood(b, acct, asset, fee);
    GoodFits(Credit(Exact, b, acct, asset, fee));
    CreditSame(b, acct, asset, fee);
  }

  /** What the buyer paid leaves room for everything the payout adds. */
  ghost predicate Room(b: Balances, asset: Asset, amount: int) {
    forall a :: Held(b, EVERYONE, a) + (if a == asset then amount else 0) <= I64_MAX
  }

  lemma SwapWithRoom(b: Balances, buyer: Account, seller: Account, assetIn: Asset, assetOut: Asset,
                     receives: int, out: int, fees: int)
    requires NonNegative(b) && 0 <= receives && 0 <= out && 0 <= fees && buyer != seller && Room(b, assetIn, receives + fees)
    ensures Swap(Bits64, b, buyer, seller, assetIn, assetOut, receives, out)
            == Swap(Exact, b, buyer, seller, assetIn, assetOut, receives, out)
    ensures var r := Swap(Exact, b, buyer, seller, assetIn, assetOut, receives, out);
            r.Some? ==> NonNegative(r.value) && Room(r.value, assetIn, fees)
  {
    hide Held, Swap;
    CreditGood(b, seller, assetIn, receives);
    SwapSame(b, buyer, seller, assetIn, assetOut, receives, out);
  }

  lemma TwoFeesSame(b: Balances, solver: Account, asset: Asset, platformFee: int, solverFee: int)
    requires NonNegative(b) && 0 <= platformFee && 0 <= solverFee && Room(b, asset, platformFee + solverFee)
    ensures Credit(Bits64, Credit(Bits64, b, PLATFORM, asset, platformFee), solver, asset, solverFee)
            == Credit(Exact, Credit(Exact, b, PLATFORM, asset, platformFee), solver, asset, solverFee)
    ensures CreditFee(Bits64, CreditFee(Bits64, b, PLATFORM, asset, platformFee), solver, asset, solverFee)
            == CreditFee(Exact, CreditFee(Exact, b, PLATFORM, asset, platformFee), solver, asset, solverFee)
  {
    hide Held;
    CreditGood(b, PLATFORM, asset, platformFee);
    FeeSame(b, PLATFORM, asset, platformFee);
    FeeSame(Credit(Exact, b, PLATFORM, asset, platformFee), solver, asset, solverFee);
    FeeSame(b, solver, asset, solverFee);
  }

  lemma ChargeAndPaySame(b: Balances, buyer: Account, seller: Account, solver: Account, assetIn: Asset, assetOut: Asset,
                         paid: int, out: int, fee: int, solverFee: int)
    requires Good(b) && buyer != seller && 0 <= solverFee <= fee <= paid && 0 <= out
    ensures ChargeAndPay(Bits64, b, buyer, seller, solver, assetIn, assetOut, paid, out, fee, solverFee)
            == ChargeAndPay(Exact, b, buyer, seller, solver, assetIn, assetOut, paid, out, fee, solverFee)
  {
    hide SumMap, Held, Swap, CreditFee, PayOut, UnlockAndDebit, Good, NonNegative, Room;
    ChargeSame(b, buyer, assetIn, paid);
    var r := UnlockAndDebit(Exact, b, buyer, assetIn, paid);
    if r.Some? {
      PayOutSame(r.value, buyer, seller, solver, assetIn, assetOut, paid - fee, out, fee - solverFee, solverFee);
    }
  }

  /** Charging the buyer is exact, and leaves room for what he paid. */
  lemma ChargeSame(b: Balances, buyer: Account, asset: Asset, paid: int)
    requires Good(b) && 0 <= paid
    ensures UnlockAndDebit(Bits64, b, buyer, asset, paid) == UnlockAndDebit(Exact, b, buyer, asset, paid)
    ensures var r := UnlockAndDebit(Exact, b, buyer, asset, paid); r.Some? ==> NonNegative(r.value) && Room(r.value, asset, paid)
  {
    hide SumMap, Held;
    GoodFits(b);
    var r := UnlockAndDebit(Exact, b, buyer, asset, paid);
    if r.Some? {
      assert NonNegative(r.value) && FitsAll(r.value);
      ShiftSame(b, buyer, asset, 0, -paid);
      forall a ensures Held(r.value, EVERYONE, a) + (if a == asset then paid else 0) <= I64_MAX {
        ShiftHeld(b, buyer, asset, 0, -paid, EVERYONE, a);
      }
    }
  }

  lemma PayOutSame(b: Balances, buyer: Account, seller: Account, solver: Account, assetIn: Asset, assetOut: Asset,
                   receives: int, out: int, platformFee: int, solverFee: int)
    requires NonNegative(b) && buyer != seller && 0 <= receives && 0 <= out && 0 <= platformFee && 0 <= solverFee
    requires Room(b, assetIn, receives + (platformFee + solverFee))
    ensures PayOut(Bits64, b, buyer, seller, solver, assetIn, assetOut, receives, out, platformFee, solverFee)
            == PayOut(Exact, b, buyer, seller, solver, assetIn, assetOut, receives, out, platformFee, solverFee)
  {
    hide Room, Swap, CreditFee, NonNegative;
    SwapWithRoom(b, buyer, seller, assetIn, assetOut, receives, out, platformFee + solverFee);
    var r := Swap(Exact, b, buyer, seller, assetIn, assetOut, receives, out);
    if r.Some? { TwoFeesSame(r.value, solver, assetIn, platformFee, solverFee); }
  }

  lemma TradeSame(b: Balances, t: Trade)
    requires Good(b) && ValidTrade(t) && t.buyer != t.seller
    ensures TradeBalances(Bits64, b, t) == TradeBalances(Exact, b, t)
  {
    hide Swap, Credit, Held;
    var receives := t.amountIn - t.platformFee - t.solverFee;
    var r := Debit(Exact, b, t.buyer, t.assetIn, t.amountIn);
    if r.Some? {
      DebitGood(b, t.buyer, t.assetIn, t.amountIn);
      GoodFits(r.value);
    }
    DebitSame(b, t.buyer, t.assetIn, t.amountIn);
    if r.Some? {
      var b0 := r.value;
      assert Room(b0, t.assetIn, receives + (t.platformFee + t.solverFee));
      hide Debit, Room, NonNegative;
      SwapWithRoom(b0, t.buyer, t.seller, t.assetIn, t.assetOut, receives, t.amountOut, t.platformFee + t.solverFee);
      var r1 := Swap(Exact, b0, t.buyer, t.seller, t.assetIn, t.assetOut, receives, t.amountOut);
      if r1.Some? { TwoFeesSame(r1.value, t.solver, t.assetIn, t.platformFee, t.solverFee); }
    }
  }

  /** Between a party and itself the credit comes first and may wrap; the debit that follows then fails. The swap is
      exact precisely when the credited sum fits. */
  lemma SelfSwapIff(b: Balances, acct: Account, assetIn: Asset, assetOut: Asset, receives: int, out: int)
    requires FitsAll(Credit(Exact, b, acct, assetIn, receives)) && 0 < out <= I64_MAX
    ensures Swap(Bits64, b, acct, acct, assetIn, assetOut, receives, out)
            == Swap(Exact, b, acct, acct, assetIn, assetOut, receives, out)
            <==> Row(Credit(Exact, b, acct, assetIn, receives), acct, assetOut).available + out <= I64_MAX
  {
    CreditSame(b, acct, assetIn, receives);
    SelfTail(Credit(Exact, b, acct, assetIn, receives), acct, assetOut, out);
  }

  lemma SelfTail(b: Balances, acct: Account, asset: Asset, out: int)
    requires FitsAll(b) && 0 < out <= I64_MAX
    ensures Debit(Bits64, Credit(Bits64, b, acct, asset, out), acct, asset, out)
            == Debit(Exact, Credit(Exact, b, acct, asset, out), acct, asset, out)
            <==> Row(b, acct, asset).available + out <= I64_MAX
  {
    var was := Row(b, acct, asset).available;
    assert 0 <= was <= I64_MAX;
    assert Row(Credit(Bits64, b, acct, asset, out), acct, asset).available == Wrap64(was + out);
    assert Debit(Exact, Credit(Exact, b, acct, asset, out), acct, asset, out).Some?;
    if was + out > I64_MAX {
      assert Wrap64(was + out) == was + out - 0x1_0000_0000_0000_0000;
    } else {
      assert Credit(Bits64, b, acct, asset, out) == Credit(Exact, b, acct, asset, out);
    }
  }

  // ---------------------------------------------------------------
  // Calls
  // ---------------------------------------------------------------

  /** The two sides of every movement are different accounts. */
  ghost predicate Distinct(s: Step) {
    && (s.OnBalance? && s.b.TransferCall? ==> s.b.from != s.b.to)
    && (s.OnSettle? ==>
          && (s.s.EventCall? || s.s.SettleIntentCall? ==> s.s.buyer != s.s.seller)
          && (s.s.NewTradeCall? ==> s.s.trade.buyer != s.s.trade.seller))
  }

  ghost predicate TradesDistinct(db: Db) { forall id :: id in db.trades ==> db.trades[id].buyer != db.trades[id].seller }

  lemma BalanceCallSame(db: Db, h: History, c: BalanceCall)
    requires FitsAll(ApplyBalance(Exact, db, c).db.balances) && BalanceContract(c) && (c.TransferCall? ==> c.from != c.to)
    ensures ApplyBalance(Bits64, db, c) == ApplyBalance(Exact, db, c)
    ensures ObserveBalance(Bits64, h, db, c) == ObserveBalance(Exact, h, db, c)
  {
    hide FitsAll;
    match c {
      case DepositCall(acct, asset, amount) => if 0 < amount { CreditSame(db.balances, acct, asset, amount); }
      case WithdrawCall(acct, asset, amount) => if 0 < amount { DebitSame(db.balances, acct, asset, amount); }
      case TransferCall(from, to, asset, amount) =>
        var b := Touch(db.balances, from, asset);
        if 0 < amount <= Row(b, from, asset).available { MoveSame(b, from, to, asset, amount); }
    }
  }

  lemma CreateSame(db: Db, acct: Account, tokenIn: Token, tokenOut: Token, amountIn: nat, minAmountOut: nat,
                   riskOk: bool, minOrderSize: int)
    requires FitsAll(CreateIntent(Exact, db, acct, tokenIn, tokenOut, amountIn, minAmountOut, riskOk, minOrderSize).db.balances)
    ensures CreateIntent(Bits64, db, acct, tokenIn, tokenOut, amountIn, minAmountOut, riskOk, minOrderSize)
            == CreateIntent(Exact, db, acct, tokenIn, tokenOut, amountIn, minAmountOut, riskOk, minOrderSize)
  {
    hide FitsAll;
    if CreateIntent(Exact, db, acct, tokenIn, tokenOut, amountIn, minAmountOut, riskOk, minOrderSize).outcome.Done? {
      ShiftSame(db.balances, acct, tokenIn.asset, -AsI64(amountIn), AsI64(amountIn));
    }
  }

  lemma AmendSame(db: Db, i: Id, acct: Account, newAmountIn: Option<nat>, newMinAmountOut: Option<nat>, newLimitPrice: Option<int>)
    requires FitsAll(AmendIntent(Exact, db, i, acct, newAmountIn, newMinAmountOut, newLimitPrice).db.balances)
    requires newAmountIn.Some? ==> newAmountIn.value <= I64_MAX
    requires i in db.intents && Amendable(db.intents[i].status) ==> 0 <= db.intents[i].amountIn <= I64_MAX
    ensures AmendIntent(Bits64, db, i, acct, newAmountIn, newMinAmountOut, newLimitPrice)
            == AmendIntent(Exact, db, i, acct, newAmountIn, newMinAmountOut, newLimitPrice)
  {
    hide FitsAll;
    if i in db.intents && Amendable(db.intents[i].status) {
      var t := db.intents[i];
      var diff := AmendDiff(Exact, t, newAmountIn);
      assert -I64_MAX <= diff <= I64_MAX && AmendDiff(Bits64, t, newAmountIn) == diff;
      hide AmendDiff;
      if AmendIntent(Exact, db, i, acct, newAmountIn, newMinAmountOut, newLimitPrice).outcome.Done? {
        ShiftSame(db.balances, acct, t.tokenIn.asset, -diff, diff);
        assert Fit(Bits64, -diff) == -diff;
      }
    }
  }

  /** What an amendable intent has locked is part of a row, so it fits. */
  lemma AmendableFits(db: Db, o: Origin, i: Id)
    requires LockInv(db, o) && FitsAll(db.balances) && i in db.intents && Amendable(db.intents[i].status)
    ensures 0 <= db.intents[i].amountIn <= I64_MAX
  {
    hide LocksMatch, SettledQty, FilledQty;
    OwnedRow(db, o, i);
    AmendableUnfilled(db, o, i);
    RemainderCovered(db, o, i);
  }

  lemma ReleaseSame(db: Db, i: Id, acct: Account, status: IntentStatus)
    requires FitsAll(ReleaseIntent(Exact, db, i, acct, status).db.balances)
    ensures ReleaseIntent(Bits64, db, i, acct, status) == ReleaseIntent(Exact, db, i, acct, status)
  {
    hide FitsAll;
    if ReleaseIntent(Exact, db, i, acct, status).outcome.Done? {
      ShiftSame(db.balances, acct, db.intents[i].tokenIn.asset, db.intents[i].amountIn, -db.intents[i].amountIn);
    }
  }

  lemma ExpireSame(db: Db, i: Id, found: Option<Account>)
    requires FitsAll(ExpireIntent(Exact, db, i, found).db.balances)
    ensures ExpireIntent(Bits64, db, i, found) == ExpireIntent(Exact, db, i, found)
  {
    hide FitsAll;
    if ExpireIntent(Exact, db, i, found).outcome.Done? && found.Some? && db.intents[i].tokenIn.Known?
       && Row(db.balances, found.value, db.intents[i].tokenIn.asset).locked >= db.intents[i].amountIn {
      ShiftSame(db.balances, found.value, db.intents[i].tokenIn.asset, db.intents[i].amountIn, -db.intents[i].amountIn);
    }
  }

  lemma IntentCallSame(db: Db, o: Origin, c: IntentCall)
    requires FitsAll(ApplyIntent(Exact, db, c).db.balances)
    requires LockInv(db, o) && FitsAll(db.balances) && IntentContract(db, o, c)
    ensures ApplyIntent(Bits64, db, c) == ApplyIntent(Exact, db, c)
    ensures OriginOfIntent(Bits64, o, db, c) == OriginOfIntent(Exact, o, db, c)
  {
    hide FitsAll, CreateIntent, AmendIntent, ReleaseIntent, ExpireIntent, LockInv;
    match c {
      case CreateCall(acct, tokenIn, tokenOut, amountIn, minAmountOut, riskOk, minOrderSize) =>
        CreateSame(db, acct, tokenIn, tokenOut, amountIn, minAmountOut, riskOk, minOrderSize);
      case AmendCall(i, acct, newAmountIn, newMinAmountOut, newLimitPrice) =>
        if i in db.intents && Amendable(db.intents[i].status) { AmendableFits(db, o, i); }
        AmendSame(db, i, acct, newAmountIn, newMinAmountOut, newLimitPrice);
      case ReleaseCall(i, acct, failed) => ReleaseSame(db, i, acct, if failed then Failed else Cancelled);
      case ExpireCall(i, found) => ExpireSame(db, i, found);
    }
  }

  lemma SettleFillSame(db: Db, f: Id, buyer: Account, seller: Account, assetIn: Asset, assetOut: Asset, rate: real)
    requires Good(db.balances) && FillsPositive(db) && buyer != seller && 0.0 <= rate <= 1.0
    ensures SettleFill(Bits64, db, f, buyer, seller, assetIn, assetOut, rate)
            == SettleFill(Exact, db, f, buyer, seller, assetIn, assetOut, rate)
    ensures PaidSolver(Bits64, db, f, buyer, seller, assetIn, assetOut, rate)
            == PaidSolver(Exact, db, f, buyer, seller, assetIn, assetOut, rate)
  {
    hide Good, ChargeAndPay, TotalFee, SolverFee, FillLedger;
    if f in db.fills {
      var fill := db.fills[f];
      var fee := TotalFee(fill.filledQty, rate);
      FeeSplit(fill.filledQty, rate);
      SolverShare(fee);
      ChargeAndPaySame(db.balances, buyer, seller, SolverAccount(db, fill.solver), assetIn, assetOut,
                       fill.filledQty, fill.qty, fee, SolverFee(fee));
    }
  }

  lemma SettleFillGood(db: Db, o: Origin, f: Id, i: Id, buyer: Account, seller: Account, assetIn: Asset, assetOut: Asset, rate: real)
    requires Good(db.balances) && LockInv(db, o) && RangeInv(db) && FillContract(db, o, f, i, buyer, assetIn)
    requires 0.0 <= rate <= 1.0
    ensures var db' := SettleFill(Exact, db, f, buyer, seller, assetIn, assetOut, rate).db;
            Good(db'.balances) && LockInv(db', o) && RangeInv(db')
  {
    var r := SettleFill(Exact, db, f, buyer, seller, assetIn, assetOut, rate);
    ShapeFillsPositive(db, o);
    SettleFillLocks(db, o, f, i, buyer, seller, assetIn, assetOut, rate);
    SettleFillSolvent(db, f, buyer, seller, assetIn, assetOut, rate);
    LockedRows(r.db, o);
    hide LockInv, RangeInv, NonNegative, FillBalances, FillLedger, Held, TotalFee;
    if r.outcome.Done? {
      FeeSplit(db.fills[f].filledQty, rate);
      FillConservesIff(db, f, buyer, seller, assetIn, assetOut, rate);
    }
  }

  lemma {:induction false} SettleEachSame(db: Db, o: Origin, rows: seq<Id>, i: Id, buyer: Account, seller: Account,
                                          assetIn: Asset, assetOut: Asset, rate: real)
    requires Good(db.balances) && LockInv(db, o) && RangeInv(db) && buyer != seller && 0.0 <= rate <= 1.0
    requires forall r :: r in rows ==> FillContract(db, o, r, i, buyer, assetIn)
    ensures SettleEach(Bits64, db, rows, buyer, seller, assetIn, assetOut, rate)
            == SettleEach(Exact, db, rows, buyer, seller, assetIn, assetOut, rate)
    ensures PaidSolvers(Bits64, db, rows, buyer, seller, assetIn, assetOut, rate)
            == PaidSolvers(Exact, db, rows, buyer, seller, assetIn, assetOut, rate)
    decreases |rows|
  {
    if rows != [] {
      var next := SettleFill(Exact, db, rows[0], buyer, seller, assetIn, assetOut, rate).db;
      hide Good, RangeInv, FillContract, SettleFill, PaidSolver, FillsPositive, Shape, LocksMatch;
      ShapeFillsPositive(db, o);
      hide LockInv;
      SettleFillSame(db, rows[0], buyer, seller, assetIn, assetOut, rate);
      SettleFillGood(db, o, rows[0], i, buyer, seller, assetIn, assetOut, rate);
      forall r | r in rows[1..] ensures FillContract(next, o, r, i, buyer, assetIn) {
        ContractKept(db, o, rows[0], r, i, buyer, seller, assetIn, assetOut, rate);
      }
      SettleEachSame(next, o, rows[1..], i, buyer, seller, assetIn, assetOut, rate);
    }
  }

  lemma SettleCallSame(db: Db, h: History, c: SettleCall)
    requires Good(db.balances) && LockInv(db, h.origin) && RangeInv(db) && TradesDistinct(db)
    requires SettleContract(db, h.origin, c) && RangeContract(OnSettle(c)) && Distinct(OnSettle(c))
    ensures ApplySettle(Bits64, db, c) == ApplySettle(Exact, db, c)
    ensures ObserveSettle(Bits64, h, db, c) == ObserveSettle(Exact, h, db, c)
  {
    ShapeFillsPositive(db, h.origin);
    hide LockInv, Good, FillsPositive, SettleFill, SettleEach, PaidSolver, PaidSolvers, UpdateStatus, ComputeStatus, TradeBalances;
    match c {
      case EventCall(f, i, buyer, seller, tokenIn, tokenOut, rate) =>
        if tokenIn.Known? && tokenOut.Known? {
          SettleFillSame(db, f, buyer, seller, tokenIn.asset, tokenOut.asset, rate);
        }
      case SettleIntentCall(i, rows, buyer, seller, assetIn, assetOut, rate) =>
        SettleEachSame(db, h.origin, rows, i, buyer, seller, assetIn, assetOut, rate);
      case NewTradeCall(_) =>
      case SettleTradeCall(id) => if id in db.trades { TradeSame(db.balances, db.trades[id]); }
    }
  }

  /** One call on the machine and one call on unbounded integers, from the same state, do the same. */
  lemma StepSame(x: World, s: Step)
    requires LockInv(x.db, x.h.origin) && RangeInv(x.db) && TradesDistinct(x.db)
    requires Contract(x.db, x.h.origin, s) && RangeContract(s) && Distinct(s)
    requires Bounded(x.db.balances) && Bounded(Apply(Exact, x.db, s).db.balances)
    ensures Next(Bits64, x, s) == Next(Exact, x, s)
  {
    var x' := Next(Exact, x, s);
    LockedRows(x.db, x.h.origin);
    StepLocks(x, s);
    StepRange(x.db, x.h.origin, s);
    LockedRows(x'.db, x'.h.origin);
    GoodFits(x'.db.balances);
    assert Good(x.db.balances);
    GoodFits(x.db.balances);
    hide LockInv, RangeInv, Good, FitsAll, ApplyBalance, ApplyIntent, ApplyAuction, ApplySettle,
      ObserveBalance, ObserveSettle, OriginOfIntent, TradesDistinct;
    match s {
      case OnBalance(c) => BalanceCallSame(x.db, x.h, c);
      case OnIntent(c) => IntentCallSame(x.db, x.h.origin, c);
      case OnAuction(_) =>
      case OnSettle(c) => SettleCallSame(x.db, x.h, c);
    }
  }

  // ---------------------------------------------------------------
  // Runs
  // ---------------------------------------------------------------

  lemma {:induction false} SettleEachTrades(w: Width, db: Db, rows: seq<Id>, buyer: Account, seller: Account,
                                            assetIn: Asset, assetOut: Asset, rate: real)
    ensures SettleEach(w, db, rows, buyer, seller, assetIn, assetOut, rate).trades == db.trades
    decreases |rows|
  {
    hide FillBalances, FillLedger;
    if rows != [] {
      SettleEachTrades(w, SettleFill(w, db, rows[0], buyer, seller, assetIn, assetOut, rate).db, rows[1..],
                       buyer, seller, assetIn, assetOut, rate);
    }
  }

  lemma BalanceCallTrades(db: Db, c: BalanceCall)
    ensures ApplyBalance(Exact, db, c).db.trades == db.trades
  {
    hide Row, Credit, Debit;
    match c {
      case DepositCall(_, _, _) =>
      case WithdrawCall(_, _, _) =>
      case LockCall(_, _, _) =>
      case UnlockCall(_, _, _) =>
      case TransferCall(_, _, _, _) =>
    }
  }

  lemma IntentCallTrades(db: Db, c: IntentCall)
    ensures ApplyIntent(Exact, db, c).db.trades == db.trades
  {
    hide Row, Shift;
    match c {
      case CreateCall(_, _, _, _, _, _, _) =>
      case AmendCall(_, _, _, _, _) =>
      case ReleaseCall(_, _, _) =>
      case ExpireCall(_, _) =>
    }
  }

  lemma StepTrades(db: Db, s: Step)
    requires TradesDistinct(db) && Distinct(s)
    ensures TradesDistinct(Apply(Exact, db, s).db)
  {
    hide ApplyBalance, ApplyIntent, ApplyAuction, SettleEach, FillBalances, FillLedger, SettledQty, TradeBalances, TradeLedger;
    match s {
      case OnBalance(c) => BalanceCallTrades(db, c);
      case OnIntent(c) => IntentCallTrades(db, c);
      case OnAuction(c) => AuctionCallTrades(db, c);
      case OnSettle(c) =>
        if c.SettleIntentCall? {
          SettleEachTrades(Exact, db, c.rows, c.buyer, c.seller, c.assetIn, c.assetOut, c.rate);
        }
    }
  }

  ghost predicate AllDistinct(steps: seq<Step>) { forall i :: 0 <= i < |steps| ==> Distinct(steps[i]) }

  ghost predicate NetFits(h: History) { forall a :: NetDeposits(h, a) <= I64_MAX }

  /** After every call of the run the net deposits of each asset fit in i64. */
  ghost predicate DepositsFit(x: World, steps: seq<Step>) {
    NetFits(Run(Exact, x, steps).h) && (steps == [] || DepositsFit(x, steps[..|steps| - 1]))
  }

  lemma {:induction false} TradesStayDistinct(solverAccounts: map<string, Account>, steps: seq<Step>)
    requires AllDistinct(steps)
    ensures TradesDistinct(Run(Exact, Start(solverAccounts), steps).db)
  {
    if steps != [] {
      var init := steps[..|steps| - 1];
      TradesStayDistinct(solverAccounts, init);
      StepTrades(Run(Exact, Start(solverAccounts), init).db, steps[|steps| - 1]);
    }
  }

  lemma RunBounded(solverAccounts: map<string, Account>, steps: seq<Step>)
    requires InRange(steps) && AllDistinct(steps) && NetFits(Run(Exact, Start(solverAccounts), steps).h)
    ensures Bounded(Run(Exact, Start(solverAccounts), steps).db.balances)
  {
    forall i | 0 <= i < |steps| ensures Sound(steps[i]) { assert RangeContract(steps[i]) && Distinct(steps[i]); }
    ConservationTheorem(solverAccounts, steps);
  }

  /** No sum of any run overflows: the run on wrapped i64 values and the run on unbounded integers are the same,
      state by state, so the theorems proved of the one hold of the other. */
  lemma {:induction false} MachineRunsExactly(solverAccounts: map<string, Account>, steps: seq<Step>)
    requires Obeys(Start(solverAccounts), steps) && InRange(steps) && AllDistinct(steps)
    requires DepositsFit(Start(solverAccounts), steps)
    ensures Run(Bits64, Start(solverAccounts), steps) == Run(Exact, Start(solverAccounts), steps)
  {
    if steps != [] {
      var init := steps[..|steps| - 1];
      var y := Run(Exact, Start(solverAccounts), init);
      MachineRunsExactly(solverAccounts, init);
      LockAccounting(solverAccounts, init);
      RangeHolds(solverAccounts, init);
      TradesStayDistinct(solverAccounts, init);
      RunBounded(solverAccounts, init);
      RunBounded(solverAccounts, steps);
      assert RangeContract(steps[|steps| - 1]) && Distinct(steps[|steps| - 1]);
      hide LockInv, RangeInv, Bounded, TradesDistinct, Contract, Next;
      StepSame(y, steps[|steps| - 1]);
    }
  }
}
