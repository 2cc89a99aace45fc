/** What every committed call does, row by row and field by field, said of the tables alone: for each call when it
    commits, which rows change by how much, which ledger rows are written and that nothing else changes. Sums are exact;
    `Machine64` carries them over to i64. */
module Effects {
  import opened Prelude
  import opened Auction
  import opened Accounting
  import opened Exchange

  // ---------------------------------------------------------------
  // Rows
  // ---------------------------------------------------------------

  /** `amount` for the row (x, a) if that is the row (acct, asset). */
  function At(x: Account, a: Asset, acct: Account, asset: Asset, amount: int): int {
    if x == acct && a == asset then amount else 0
  }

  /** The row (x, a) moved by these two amounts; a missing row counts as zeros. */
  ghost predicate Moved(b: Balances, b': Balances, x: Account, a: Asset, dAvailable: int, dLocked: int) {
    Row(b', x, a) == Balance(Row(b, x, a).available + dAvailable, Row(b, x, a).locked + dLocked)
  }

  ghost predicate SameRows(b: Balances, b': Balances) { forall x, a :: Moved(b, b', x, a, 0, 0) }

  lemma CreditMoves(b: Balances, acct: Account, asset: Asset, amount: int, x: Account, a: Asset)
    ensures Moved(b, Credit(Exact, b, acct, asset, amount), x, a, At(x, a, acct, asset, amount), 0)
  {
  }

  lemma DebitMoves(b: Balances, acct: Account, asset: Asset, amount: int, x: Account, a: Asset)
    ensures var r := Debit(Exact, b, acct, asset, amount);
            && (r.Some? <==> amount <= Row(b, acct, asset).available)
            && (r.Some? ==> Moved(b, r.value, x, a, -At(x, a, acct, asset, amount), 0))
  {
  }

  lemma ShiftMoves(b: Balances, acct: Account, asset: Asset, dAvailable: int, dLocked: int, x: Account, a: Asset)
    ensures var r := Shift(Exact, b, acct, asset, dAvailable, dLocked);
            var there := (acct, asset) in b;
            && r.Some?
            && Moved(b, r.value, x, a, if there then At(x, a, acct, asset, dAvailable) else 0,
                     if there then At(x, a, acct, asset, dLocked) else 0)
  {
  }

  /** `amount` goes from available to locked where there is a row, and back when it is negative. */
  ghost predicate ColumnsMove(b: Balances, b': Balances, acct: Account, asset: Asset, amount: int) {
    var moved := if (acct, asset) in b then amount else 0;
    forall x, a :: Moved(b, b', x, a, -At(x, a, acct, asset, moved), At(x, a, acct, asset, moved))
  }

  lemma ShiftColumns(b: Balances, acct: Account, asset: Asset, amount: int)
    ensures var r := Shift(Exact, b, acct, asset, -amount, amount);
            r.Some? && ColumnsMove(b, r.value, acct, asset, amount)
  {
    var r := Shift(Exact, b, acct, asset, -amount, amount);
    var moved := if (acct, asset) in b then amount else 0;
    forall x, a ensures Moved(b, r.value, x, a, -At(x, a, acct, asset, moved), At(x, a, acct, asset, moved)) {
      ShiftMoves(b, acct, asset, -amount, amount, x, a);
    }
  }

  lemma ChainMoves(b: Balances, b': Balances, b'': Balances, x: Account, a: Asset, dA: int, dL: int, eA: int, eL: int)
    requires Moved(b, b', x, a, dA, dL) && Moved(b', b'', x, a, eA, eL)
    ensures Moved(b, b'', x, a, dA + eA, dL + eL)
  {
  }

  // ---------------------------------------------------------------
  // Balance service
  // ---------------------------------------------------------------

  lemma DepositEffect(db: Db, acct: Account, asset: Asset, amount: int)
    ensures var r := Deposit(Exact, db, acct, asset, amount);
            && r.outcome == (if amount <= 0 then Rejected(InvalidAmount) else Done)
            && (r.outcome.Rejected? ==> r.db == db)
            && (r.outcome.Done? ==>
                  && (forall x, a :: Moved(db.balances, r.db.balances, x, a, At(x, a, acct, asset, amount), 0))
                  && r.db == db.(balances := r.db.balances, nextId := db.nextId + 1,
                                 ledger := db.ledger + [Entry(acct, asset, amount, DEBIT, DEPOSIT, db.nextId)]))
  {
    hide Credit, Row;
    forall x, a ensures Moved(db.balances, Credit(Exact, db.balances, acct, asset, amount), x, a, At(x, a, acct, asset, amount), 0) {
      CreditMoves(db.balances, acct, asset, amount, x, a);
    }
  }

  lemma WithdrawEffect(db: Db, acct: Account, asset: Asset, amount: int)
    ensures var r := Withdraw(Exact, db, acct, asset, amount);
            && r.outcome == (if amount <= 0 then Rejected(InvalidAmount)
                             else if Row(db.balances, acct, asset).available < amount then Rejected(InsufficientBalance) else Done)
            && (r.outcome.Rejected? ==> SameRows(db.balances, r.db.balances) && r.db == db.(balances := r.db.balances))
            && (r.outcome.Done? ==>
                  && (forall x, a :: Moved(db.balances, r.db.balances, x, a, -At(x, a, acct, asset, amount), 0))
                  && r.db == db.(balances := r.db.balances, nextId := db.nextId + 1,
                                 ledger := db.ledger + [Entry(acct, asset, amount, CREDIT, WITHDRAWAL, db.nextId)]))
  {
    forall x, a ensures Moved(db.balances, Touch(db.balances, acct, asset), x, a, 0, 0) {}
    forall x, a ensures var r := Debit(Exact, db.balances, acct, asset, amount);
                        r.Some? ==> Moved(db.balances, r.value, x, a, -At(x, a, acct, asset, amount), 0) {
      DebitMoves(db.balances, acct, asset, amount, x, a);
    }
    DebitMoves(db.balances, acct, asset, amount, acct, asset);
    hide Moved, Touch, Debit, Row;
  }

  lemma LockEffect(db: Db, acct: Account, asset: Asset, amount: int)
    ensures var r := LockBalance(Exact, db, acct, asset, amount);
            && r.outcome == (if amount <= 0 then Rejected(InvalidAmount)
                             else if Row(db.balances, acct, asset).available < amount then Rejected(InsufficientBalance) else Done)
            && r.db == db.(balances := r.db.balances)
            && (r.outcome.Rejected? ==> SameRows(db.balances, r.db.balances))
            && (r.outcome.Done? ==>
                  forall x, a :: Moved(db.balances, r.db.balances, x, a, -At(x, a, acct, asset, amount), At(x, a, acct, asset, amount)))
  {
  }

  lemma UnlockEffect(db: Db, acct: Account, asset: Asset, amount: int)
    ensures var r := UnlockBalance(Exact, db, acct, asset, amount);
            && r.outcome == (if amount <= 0 then Rejected(InvalidAmount)
                             else if Row(db.balances, acct, asset).locked < amount then Rejected(InsufficientLockedBalance) else Done)
            && r.db == db.(balances := r.db.balances)
            && (r.outcome.Rejected? ==> SameRows(db.balances, r.db.balances))
            && (r.outcome.Done? ==>
                  forall x, a :: Moved(db.balances, r.db.balances, x, a, At(x, a, acct, asset, amount), -At(x, a, acct, asset, amount)))
  {
  }

  lemma TransferEffect(db: Db, from: Account, to: Account, asset: Asset, amount: int)
    ensures var r := Transfer(Exact, db, from, to, asset, amount);
            && r.outcome == (if amount <= 0 then Rejected(InvalidAmount)
                             else if Row(db.balances, from, asset).available < amount then Rejected(InsufficientBalance) else Done)
            && (r.outcome.Rejected? ==> SameRows(db.balances, r.db.balances) && r.db == db.(balances := r.db.balances))
            && (r.outcome.Done? ==>
                  && (forall x, a :: Moved(db.balances, r.db.balances, x, a, At(x, a, to, asset, amount)
                                             - (if from == to then 0 else At(x, a, from, asset, amount)), 0))
                  && r.db == db.(balances := r.db.balances, nextId := db.nextId + 1,
                                 ledger := db.ledger + [Entry(from, asset, amount, DEBIT, TRADE, db.nextId),
                                                        Entry(to, asset, amount, CREDIT, TRADE, db.nextId)]))
  {
    var b := Touch(db.balances, from, asset);
    assert Row(b, from, asset) == Row(db.balances, from, asset);
    forall x, a ensures Moved(db.balances, b, x, a, 0, 0) {}
    forall x, a ensures Moved(db.balances, MoveRows(Exact, b, from, to, asset, amount), x, a, At(x, a, to, asset, amount)
                                - (if from == to then 0 else At(x, a, from, asset, amount)), 0) {}
    assert DoubleEntry(db.ledger, from, to, asset, amount, db.nextId)
           == db.ledger + [Entry(from, asset, amount, DEBIT, TRADE, db.nextId), Entry(to, asset, amount, CREDIT, TRADE, db.nextId)];
    hide Moved, MoveRows, Touch, Row, DoubleEntry;
  }

  // ---------------------------------------------------------------
  // Intents
  // ---------------------------------------------------------------

  /** `x as i64` */
  predicate IsCast(v: nat, x: int) {
    v < 0x1_0000_0000_0000_0000 ==> x == if v < 0x8000_0000_0000_0000 then v else v - 0x1_0000_0000_0000_0000
  }

  lemma CreateEffect(db: Db, acct: Account, tokenIn: Token, tokenOut: Token, amountIn: nat, minAmountOut: nat,
                     riskOk: bool, minOrderSize: int)
    ensures var r := CreateIntent(Exact, db, acct, tokenIn, tokenOut, amountIn, minAmountOut, riskOk, minOrderSize);
            && (r.outcome.Rejected? ==> r.db == db)
            && (forall amount :: amountIn < 0x1_0000_0000_0000_0000 && IsCast(amountIn, amount) ==>
                  r.outcome == if !riskOk || amount < minOrderSize then Rejected(RiskRejected)
                               else if tokenIn.Unknown? then Rejected(InvalidAsset)
                               else if Row(db.balances, acct, tokenIn.asset).available < amount then Rejected(InsufficientBalance)
                               else Done)
            && (r.outcome.Done? ==>
                  && tokenIn.Known? && db.nextId in r.db.intents
                  && var t := r.db.intents[db.nextId];
                  && IsCast(amountIn, t.amountIn) && IsCast(minAmountOut, t.minAmountOut)
                  && t == Intent(tokenIn, tokenOut, t.amountIn, t.minAmountOut, Open, Market, None)
                  && r.db == db.(balances := r.db.balances, intents := db.intents[db.nextId := t], nextId := db.nextId + 1)
                  && riskOk && minOrderSize <= t.amountIn <= Row(db.balances, acct, tokenIn.asset).available
                  && ColumnsMove(db.balances, r.db.balances, acct, tokenIn.asset, t.amountIn))
    ensures (amountIn < 0x8000_0000_0000_0000 && tokenIn.Known? && riskOk
             && minOrderSize <= amountIn <= Row(db.balances, acct, tokenIn.asset).available) ==>
              CreateIntent(Exact, db, acct, tokenIn, tokenOut, amountIn, minAmountOut, riskOk, minOrderSize).outcome.Done?
  {
    hide ColumnsMove, Shift, Row;
    if tokenIn.Known? { ShiftColumns(db.balances, acct, tokenIn.asset, AsI64(amountIn)); }
  }

  /** A field that is given is stored, one that is not given keeps its value. */
  predicate Stored(given: Option<nat>, before: int, after: int) {
    if given.Some? then IsCast(given.value, after) else after == before
  }

  /** A committed amendment stores each field given, keeps each field not given and everything else about the intent,
      opens it again, and moves the difference between the owner's columns. */
  lemma AmendEffect(db: Db, i: Id, acct: Account, newAmountIn: Option<nat>, newMinAmountOut: Option<nat>, newLimitPrice: Option<int>)
    ensures var r := AmendIntent(Exact, db, i, acct, newAmountIn, newMinAmountOut, newLimitPrice);
            && (r.outcome.Rejected? ==> r.db == db)
            && (i !in db.intents ==> r.outcome == Rejected(IntentNotFound))
            && (i in db.intents ==>
                  var t := db.intents[i];
                  if !t.status.Open? && !t.status.Bidding? then r.outcome == Rejected(NotAmendable)
                  else if t.tokenIn.Unknown? then r.outcome == Rejected(InvalidAsset)
                  else r.outcome == Done || r.outcome == Rejected(InsufficientBalance))
            && (r.outcome.Done? ==>
                  && i in db.intents && i in r.db.intents && db.intents[i].tokenIn.Known?
                  && (db.intents[i].status.Open? || db.intents[i].status.Bidding?)
                  && var t, t' := db.intents[i], r.db.intents[i];
                  && Stored(newAmountIn, t.amountIn, t'.amountIn) && Stored(newMinAmountOut, t.minAmountOut, t'.minAmountOut)
                  && t'.limitPrice == (if newLimitPrice.Some? then newLimitPrice else t.limitPrice)
                  && t'.tokenIn == t.tokenIn && t'.tokenOut == t.tokenOut && t'.orderType == t.orderType && t'.status == Open
                  && r.db == db.(balances := r.db.balances, intents := db.intents[i := t'])
                  && var diff := t'.amountIn - t.amountIn;
                  && diff <= Positive(Row(db.balances, acct, t.tokenIn.asset).available)
                  && ColumnsMove(db.balances, r.db.balances, acct, t.tokenIn.asset, diff))
  {
    hide ColumnsMove, Shift, Row;
    if i in db.intents && db.intents[i].tokenIn.Known? {
      ShiftColumns(db.balances, acct, db.intents[i].tokenIn.asset, AmendDiff(Exact, db.intents[i], newAmountIn));
    }
  }

  function Positive(x: int): nat { if x > 0 then x else 0 }

  /** An amendment of an open intent commits exactly when the owner can lock what is asked for on top. */
  lemma AmendCommitsIff(db: Db, i: Id, acct: Account, newAmountIn: nat, newMinAmountOut: Option<nat>, newLimitPrice: Option<int>)
    requires newAmountIn < 0x8000_0000_0000_0000
    ensures AmendIntent(Exact, db, i, acct, Some(newAmountIn), newMinAmountOut, newLimitPrice).outcome.Done? <==>
              && i in db.intents && (db.intents[i].status.Open? || db.intents[i].status.Bidding?) && db.intents[i].tokenIn.Known?
              && (newAmountIn <= db.intents[i].amountIn
                  || newAmountIn - db.intents[i].amountIn <= Row(db.balances, acct, db.intents[i].tokenIn.asset).available)
  {
    if i in db.intents && db.intents[i].tokenIn.Known? {
      var asset, diff := db.intents[i].tokenIn.asset, AmendDiff(Exact, db.intents[i], Some(newAmountIn));
      ShiftMoves(db.balances, acct, asset, -diff, diff, acct, asset);
    }
    hide Shift, Row;
  }

  lemma ReleaseEffect(db: Db, i: Id, acct: Account, status: IntentStatus)
    ensures var r := ReleaseIntent(Exact, db, i, acct, status);
            && r.outcome == (if i !in db.intents then Skipped else if db.intents[i].tokenIn.Unknown? then Rejected(InvalidAsset) else Done)
            && (!r.outcome.Done? ==> r.db == db)
            && (r.outcome.Done? ==>
                  && var t := db.intents[i];
                  && r.db == db.(balances := r.db.balances, intents := db.intents[i := t.(status := status)])
                  && ColumnsMove(db.balances, r.db.balances, acct, t.tokenIn.asset, -t.amountIn))
  {
    hide ColumnsMove, Shift, Row;
    if i in db.intents && db.intents[i].tokenIn.Known? {
      ShiftColumns(db.balances, acct, db.intents[i].tokenIn.asset, -db.intents[i].amountIn);
    }
  }

  /** Expiry acts on open and bidding intents only, and gives back only what is there to give. */
  lemma ExpireEffect(db: Db, i: Id, found: Option<Account>)
    ensures var r := ExpireIntent(Exact, db, i, found);
            var open := i in db.intents && (db.intents[i].status.Open? || db.intents[i].status.Bidding?);
            && r.outcome == (if open then Done else Skipped)
            && (!open ==> r.db == db)
            && (open ==>
                  && var t := db.intents[i];
                  && r.db == db.(balances := r.db.balances, intents := db.intents[i := t.(status := Expired)])
                  && var pays := found.Some? && t.tokenIn.Known? && (found.value, t.tokenIn.asset) in db.balances
                                 && t.amountIn <= db.balances[(found.value, t.tokenIn.asset)].locked;
                     if pays then ColumnsMove(db.balances, r.db.balances, found.value, t.tokenIn.asset, -t.amountIn)
                     else SameRows(db.balances, r.db.balances))
  {
    hide ColumnsMove, Shift, Moved, SameRows;
    NothingMoved(db.balances);
    if i in db.intents && db.intents[i].tokenIn.Known? && found.Some? {
      ShiftColumns(db.balances, found.value, db.intents[i].tokenIn.asset, -db.intents[i].amountIn);
      MissingRow(db.balances, found.value, db.intents[i].tokenIn.asset, db.intents[i].amountIn);
    }
  }

  lemma NothingMoved(b: Balances)
    ensures SameRows(b, b)
  {
  }

  lemma MissingRow(b: Balances, acct: Account, asset: Asset, amount: int)
    ensures (acct, asset) !in b ==> Shift(Exact, b, acct, asset, amount, -amount) == Some(b)
  {
  }

  /** Bids queue up in order; beginning and executing write one status. */
  lemma AuctionCallEffect(db: Db, i: Id, bid: Bid, riskOk: bool)
    ensures var r := SubmitBid(db, i, bid, riskOk);
            var before := if i in db.bids then db.bids[i] else [];
            && r.outcome == (if i !in db.intents then Rejected(IntentNotFound) else if !riskOk then Rejected(RiskRejected) else Done)
            && r.db == if r.outcome.Done? then db.(bids := db.bids[i := before + [bid]]) else db
    ensures var r := BeginAuction(db, i);
            r.db == if i in db.intents then db.(intents := db.intents[i := db.intents[i].(status := Bidding)]) else db
    ensures var r := StartExecution(db, i);
            r.db == if i in db.intents && exists f :: f in db.fills && db.fills[f].intent == i
                    then db.(intents := db.intents[i := db.intents[i].(status := Executing)]) else db
  {
  }

  // ---------------------------------------------------------------
  // Settlement
  // ---------------------------------------------------------------

  lemma SwapMoves(b: Balances, buyer: Account, seller: Account, assetIn: Asset, assetOut: Asset, receives: int, out: int,
                  x: Account, a: Asset)
    requires Swap(Exact, b, buyer, seller, assetIn, assetOut, receives, out).Some?
    ensures Moved(b, Swap(Exact, b, buyer, seller, assetIn, assetOut, receives, out).value, x, a,
                  At(x, a, seller, assetIn, receives) + At(x, a, buyer, assetOut, out) - At(x, a, seller, assetOut, out), 0)
  {
    hide Credit, Debit, Moved, Row;
    var b1 := Credit(Exact, b, seller, assetIn, receives);
    var b2 := Credit(Exact, b1, buyer, assetOut, out);
    var b3 := Debit(Exact, b2, seller, assetOut, out).value;
    CreditMoves(b, seller, assetIn, receives, x, a);
    CreditMoves(b1, buyer, assetOut, out, x, a);
    DebitMoves(b2, seller, assetOut, out, x, a);
    ChainMoves(b, b1, b2, x, a, At(x, a, seller, assetIn, receives), 0, At(x, a, buyer, assetOut, out), 0);
    ChainMoves(b, b2, b3, x, a, At(x, a, seller, assetIn, receives) + At(x, a, buyer, assetOut, out), 0,
               -At(x, a, seller, assetOut, out), 0);
  }

  lemma FeeMoves(b: Balances, acct: Account, asset: Asset, fee: int, x: Account, a: Asset)
    ensures Moved(b, CreditFee(Exact, b, acct, asset, fee), x, a, At(x, a, acct, asset, Positive(fee)), 0)
  {
  }

  /** The rows after a fill of `paid` for `out` whose fees are `fee`, of it `share` for the solver. */
  ghost predicate PaidOut(b: Balances, b': Balances, buyer: Account, seller: Account, solver: Account,
                          assetIn: Asset, assetOut: Asset, paid: int, out: int, fee: int, share: int) {
    forall x, a :: Moved(b, b', x, a,
                         At(x, a, seller, assetIn, paid - fee) + At(x, a, buyer, assetOut, out) - At(x, a, seller, assetOut, out)
                         + At(x, a, PLATFORM, assetIn, Positive(fee - share)) + At(x, a, solver, assetIn, Positive(share)),
                         -At(x, a, buyer, assetIn, paid))
  }

  lemma ChargeAndPayMoves(b: Balances, buyer: Account, seller: Account, solver: Account, assetIn: Asset, assetOut: Asset,
                          paid: int, out: int, fee: int, share: int)
    requires ChargeAndPay(Exact, b, buyer, seller, solver, assetIn, assetOut, paid, out, fee, share).Some?
    ensures PaidOut(b, ChargeAndPay(Exact, b, buyer, seller, solver, assetIn, assetOut, paid, out, fee, share).value,
                    buyer, seller, solver, assetIn, assetOut, paid, out, fee, share)
  {
    hide Shift, Swap, CreditFee, Moved, Row, Positive;
    var b0 := UnlockAndDebit(Exact, b, buyer, assetIn, paid).value;
    var b1 := Swap(Exact, b0, buyer, seller, assetIn, assetOut, paid - fee, out).value;
    var b2 := CreditFee(Exact, b1, PLATFORM, assetIn, fee - share);
    var b3 := CreditFee(Exact, b2, solver, assetIn, share);
    forall x, a ensures Moved(b, b3, x, a,
                              At(x, a, seller, assetIn, paid - fee) + At(x, a, buyer, assetOut, out) - At(x, a, seller, assetOut, out)
                              + At(x, a, PLATFORM, assetIn, Positive(fee - share)) + At(x, a, solver, assetIn, Positive(share)),
                              -At(x, a, buyer, assetIn, paid)) {
      ShiftMoves(b, buyer, assetIn, 0, -paid, x, a);
      SwapMoves(b0, buyer, seller, assetIn, assetOut, paid - fee, out, x, a);
      FeeMoves(b1, PLATFORM, assetIn, fee - share, x, a);
      FeeMoves(b2, solver, assetIn, share, x, a);
      var swapped := At(x, a, seller, assetIn, paid - fee) + At(x, a, buyer, assetOut, out) - At(x, a, seller, assetOut, out);
      var charged := -At(x, a, buyer, assetIn, paid);
      ChainMoves(b, b0, b1, x, a, 0, charged, swapped, 0);
      ChainMoves(b, b1, b2, x, a, swapped, charged, At(x, a, PLATFORM, assetIn, Positive(fee - share)), 0);
      ChainMoves(b, b2, b3, x, a, swapped + At(x, a, PLATFORM, assetIn, Positive(fee - share)), charged,
                 At(x, a, solver, assetIn, Positive(share)), 0);
    }
  }

  /** `n` is `x` cut off towards zero, held within i64. */
  predicate CutOff(x: real, n: int) {
    && (0.0 <= x < 0x8000_0000_0000_0000 as real ==> n as real <= x < n as real + 1.0)
    && (-0x8000_0000_0000_0000 as real <= x < 0.0 ==> n as real - 1.0 < x <= n as real)
    && (x >= 0x8000_0000_0000_0000 as real ==> n == 0x7FFF_FFFF_FFFF_FFFF)
    && (x < -0x8000_0000_0000_0000 as real ==> n == -0x8000_0000_0000_0000)
  }

  /** The fee is the amount times the rate, cut off. */
  predicate FeeIs(amount: int, rate: real, fee: int) { CutOff(amount as real * rate, fee) }

  lemma FeesCutOff(amount: int, rate: real)
    ensures FeeIs(amount, rate, TotalFee(amount, rate))
    ensures var fee, share := TotalFee(amount, rate), SolverFee(TotalFee(amount, rate));
            && (fee >= 0 ==> 10 * share <= 3 * fee < 10 * share + 10)
            && (fee < 0 ==> 10 * share - 10 < 3 * fee <= 10 * share)
  {
    CutOffIs(amount as real * rate);
    ShareIs(TotalFee(amount, rate));
  }

  lemma CutOffIs(x: real)
    ensures CutOff(x, Clamp64(Trunc(x)))
  {
    if x >= 0.0 {
      assert x.Floor as real <= x < x.Floor as real + 1.0;
    } else {
      assert (-x).Floor as real <= -x < (-x).Floor as real + 1.0;
    }
  }

  lemma ShareIs(fee: int)
    requires I64_MIN <= fee <= I64_MAX
    ensures var share := SolverFee(fee);
            && (fee >= 0 ==> 10 * share <= 3 * fee < 10 * share + 10)
            && (fee < 0 ==> 10 * share - 10 < 3 * fee <= 10 * share)
  {
    var x := fee as real * 0.3;
    if fee >= 0 {
      var n := x.Floor;
      assert n as real <= x < n as real + 1.0;
      assert 10.0 * (n as real) <= 3.0 * (fee as real) < 10.0 * (n as real) + 10.0;
    } else {
      var n := (-x).Floor;
      assert n as real <= -x < n as real + 1.0;
      assert 10.0 * (n as real) <= -3.0 * (fee as real) < 10.0 * (n as real) + 10.0;
    }
  }

  function IfPositive(fee: int, e: Entry): seq<Entry> { if fee > 0 then [e] else [] }

  /** A committed fill, under every aliasing of its parties and assets: what each row gains and loses, with the fee cut
      off from quantity times rate, three tenths of it, cut off again, for the solver's account, or the platform's if the
      solver has none, and the rest for the platform; the ledger rows; and the mark on the fill. */
  lemma SettleFillEffect(db: Db, f: Id, buyer: Account, seller: Account, assetIn: Asset, assetOut: Asset, rate: real)
    returns (fee: int, share: int)
    requires SettleFill(Exact, db, f, buyer, seller, assetIn, assetOut, rate).outcome.Done?
    ensures f in db.fills && !db.fills[f].settled && FeeIs(db.fills[f].filledQty, rate, fee)
    ensures fee >= 0 ==> 10 * share <= 3 * fee < 10 * share + 10
    ensures fee < 0 ==> 10 * share - 10 < 3 * fee <= 10 * share
    ensures var db' := SettleFill(Exact, db, f, buyer, seller, assetIn, assetOut, rate).db;
            var fill := db.fills[f];
            var solver := if fill.solver in db.solverAccounts then db.solverAccounts[fill.solver] else 1;
            && PaidOut(db.balances, db'.balances, buyer, seller, solver, assetIn, assetOut, fill.filledQty, fill.qty, fee, share)
            && db'.ledger == db.ledger
                 + [Entry(buyer, assetIn, fill.filledQty, CREDIT, TRADE, f), Entry(buyer, assetOut, fill.qty, DEBIT, TRADE, f),
                    Entry(seller, assetIn, fill.filledQty - fee, DEBIT, TRADE, f), Entry(seller, assetOut, fill.qty, CREDIT, TRADE, f)]
                 + IfPositive(fee - share, Entry(1, assetIn, fee - share, DEBIT, FEE, f))
                 + IfPositive(share, Entry(1, assetIn, share, DEBIT, FEE, f))
            && db' == db.(balances := db'.balances, ledger := db'.ledger, fills := db.fills[f := fill.(settled := true)])
  {
    hide TotalFee, SolverFee, FeeIs, ChargeAndPay, PaidOut, PostSwap, PostFees, IfPositive;
    var fill := db.fills[f];
    fee, share := TotalFee(fill.filledQty, rate), SolverFee(TotalFee(fill.filledQty, rate));
    FeesCutOff(fill.filledQty, rate);
    ChargeAndPayMoves(db.balances, buyer, seller, SolverAccount(db, fill.solver), assetIn, assetOut, fill.filledQty, fill.qty, fee, share);
    FillRows(db.ledger, buyer, seller, assetIn, assetOut, fill.filledQty, fill.qty, fee, share, f);
  }

  lemma FillRows(l: seq<Entry>, buyer: Account, seller: Account, assetIn: Asset, assetOut: Asset, paid: int, out: int,
                 fee: int, share: int, f: Id)
    ensures PostFees(PostSwap(l, buyer, seller, assetIn, assetOut, paid, paid - fee, out, f), assetIn, fee - share, share, f)
            == l + [Entry(buyer, assetIn, paid, CREDIT, TRADE, f), Entry(buyer, assetOut, out, DEBIT, TRADE, f),
                    Entry(seller, assetIn, paid - fee, DEBIT, TRADE, f), Entry(seller, assetOut, out, CREDIT, TRADE, f)]
                 + IfPositive(fee - share, Entry(1, assetIn, fee - share, DEBIT, FEE, f))
                 + IfPositive(share, Entry(1, assetIn, share, DEBIT, FEE, f))
  {
  }

  /** A settlement that does not commit says why, and changes nothing. */
  lemma SettleRefused(db: Db, f: Id, buyer: Account, seller: Account, assetIn: Asset, assetOut: Asset, rate: real)
    ensures var r := SettleFill(Exact, db, f, buyer, seller, assetIn, assetOut, rate);
            && (f !in db.fills ==> r == Result(db, Rejected(FillNotFound)))
            && (f in db.fills && db.fills[f].settled ==> r == Result(db, Rejected(AlreadySettled)))
            && (f in db.fills && !db.fills[f].settled && !r.outcome.Done? ==> r == Result(db, Rejected(InsufficientBalance)))
  {
    hide FillBalances, FillLedger;
  }

  /** A committed trade: rows, ledger and mark; it commits exactly when the buyer can pay and the seller can deliver. */
  lemma SettleTradeEffect(db: Db, id: Id)
    requires SettleTrade(Exact, db, id).outcome.Done?
    ensures id in db.trades && !db.trades[id].settled
    ensures var t, db' := db.trades[id], SettleTrade(Exact, db, id).db;
            var receives := t.amountIn - t.platformFee - t.solverFee;
            && (forall x, a :: Moved(db.balances, db'.balances, x, a,
                                     At(x, a, t.seller, t.assetIn, receives) - At(x, a, t.buyer, t.assetIn, t.amountIn)
                                     + At(x, a, t.buyer, t.assetOut, t.amountOut) - At(x, a, t.seller, t.assetOut, t.amountOut)
                                     + At(x, a, 1, t.assetIn, t.platformFee) + At(x, a, t.solver, t.assetIn, t.solverFee), 0))
            && db'.ledger == db.ledger
                 + [Entry(t.buyer, t.assetIn, t.amountIn, CREDIT, TRADE, id), Entry(t.buyer, t.assetOut, t.amountOut, DEBIT, TRADE, id),
                    Entry(t.seller, t.assetIn, receives, DEBIT, TRADE, id), Entry(t.seller, t.assetOut, t.amountOut, CREDIT, TRADE, id),
                    Entry(1, t.assetIn, t.platformFee, DEBIT, FEE, id), Entry(t.solver, t.assetIn, t.solverFee, DEBIT, FEE, id)]
            && db' == db.(balances := db'.balances, ledger := db'.ledger, trades := db.trades[id := t.(settled := true)])
  {
    var t, db' := db.trades[id], SettleTrade(Exact, db, id).db;
    forall x, a ensures Moved(db.balances, db'.balances, x, a,
                              At(x, a, t.seller, t.assetIn, t.amountIn - t.platformFee - t.solverFee) - At(x, a, t.buyer, t.assetIn, t.amountIn)
                              + At(x, a, t.buyer, t.assetOut, t.amountOut) - At(x, a, t.seller, t.assetOut, t.amountOut)
                              + At(x, a, 1, t.assetIn, t.platformFee) + At(x, a, t.solver, t.assetIn, t.solverFee), 0) {
      TradeMoves(db.balances, t, x, a);
    }
    hide TradeBalances, Moved;
  }

  lemma TradeMoves(b: Balances, t: Trade, x: Account, a: Asset)
    requires TradeBalances(Exact, b, t).Some?
    ensures Moved(b, TradeBalances(Exact, b, t).value, x, a,
                  At(x, a, t.seller, t.assetIn, t.amountIn - t.platformFee - t.solverFee) - At(x, a, t.buyer, t.assetIn, t.amountIn)
                  + At(x, a, t.buyer, t.assetOut, t.amountOut) - At(x, a, t.seller, t.assetOut, t.amountOut)
                  + At(x, a, 1, t.assetIn, t.platformFee) + At(x, a, t.solver, t.assetIn, t.solverFee), 0)
  {
    hide Debit, Swap, Credit, Moved, Row;
    var receives := t.amountIn - t.platformFee - t.solverFee;
    var b0 := Debit(Exact, b, t.buyer, t.assetIn, t.amountIn).value;
    var b1 := Swap(Exact, b0, t.buyer, t.seller, t.assetIn, t.assetOut, receives, t.amountOut).value;
    var b2 := Credit(Exact, b1, PLATFORM, t.assetIn, t.platformFee);
    var b3 := Credit(Exact, b2, t.solver, t.assetIn, t.solverFee);
    DebitMoves(b, t.buyer, t.assetIn, t.amountIn, x, a);
    SwapMoves(b0, t.buyer, t.seller, t.assetIn, t.assetOut, receives, t.amountOut, x, a);
    CreditMoves(b1, PLATFORM, t.assetIn, t.platformFee, x, a);
    CreditMoves(b2, t.solver, t.assetIn, t.solverFee, x, a);
    var paid := -At(x, a, t.buyer, t.assetIn, t.amountIn);
    var swapped := At(x, a, t.seller, t.assetIn, receives) + At(x, a, t.buyer, t.assetOut, t.amountOut) - At(x, a, t.seller, t.assetOut, t.amountOut);
    ChainMoves(b, b0, b1, x, a, paid, 0, swapped, 0);
    ChainMoves(b, b1, b2, x, a, paid + swapped, 0, At(x, a, PLATFORM, t.assetIn, t.platformFee), 0);
    ChainMoves(b, b2, b3, x, a, paid + swapped + At(x, a, PLATFORM, t.assetIn, t.platformFee), 0, At(x, a, t.solver, t.assetIn, t.solverFee), 0);
  }

  lemma TradeCommitsIff(db: Db, id: Id)
    ensures var r := SettleTrade(Exact, db, id);
            && (id !in db.trades ==> r == Result(db, Rejected(TradeNotFound)))
            && (id in db.trades && db.trades[id].settled ==> r == Result(db, Rejected(AlreadySettled)))
            && (id in db.trades && !db.trades[id].settled ==>
                  && (!r.outcome.Done? ==> r == Result(db, Rejected(InsufficientBalance)))
                  && var t := db.trades[id];
                     var b, receives := db.balances, t.amountIn - t.platformFee - t.solverFee;
                     var own := Row(b, t.seller, t.assetOut).available + At(t.seller, t.assetOut, t.seller, t.assetIn, receives)
                                - At(t.seller, t.assetOut, t.buyer, t.assetIn, t.amountIn)
                                + At(t.seller, t.assetOut, t.buyer, t.assetOut, t.amountOut);
                     (r.outcome.Done? <==> t.amountIn <= Row(b, t.buyer, t.assetIn).available && t.amountOut <= own))
  {
    if id in db.trades && !db.trades[id].settled {
      var t := db.trades[id];
      DebitMoves(db.balances, t.buyer, t.assetIn, t.amountIn, t.seller, t.assetOut);
      var r0 := Debit(Exact, db.balances, t.buyer, t.assetIn, t.amountIn);
      if r0.Some? {
        var b1 := Credit(Exact, r0.value, t.seller, t.assetIn, t.amountIn - t.platformFee - t.solverFee);
        CreditMoves(r0.value, t.seller, t.assetIn, t.amountIn - t.platformFee - t.solverFee, t.seller, t.assetOut);
        CreditMoves(b1, t.buyer, t.assetOut, t.amountOut, t.seller, t.assetOut);
        DebitMoves(Credit(Exact, b1, t.buyer, t.assetOut, t.amountOut), t.seller, t.assetOut, t.amountOut, t.seller, t.assetOut);
      }
      hide Debit, Credit, Row, TradeLedger;
    }
  }

  lemma NewTradeEffect(db: Db, t: Trade)
    ensures var db' := CreateTrade(db, t).db;
            && db.nextId in db'.trades && !db'.trades[db.nextId].settled && db'.trades[db.nextId].(settled := t.settled) == t
            && db' == db.(trades := db.trades[db.nextId := db'.trades[db.nextId]], nextId := db.nextId + 1)
  {
  }

  /** The listed fills are settled one after the other, each on what the ones before it left. */
  lemma {:induction false} OneAfterTheOther(db: Db, rows: seq<Id>, f: Id, buyer: Account, seller: Account,
                                            assetIn: Asset, assetOut: Asset, rate: real)
    ensures SettleEach(Exact, db, [], buyer, seller, assetIn, assetOut, rate) == db
    ensures SettleEach(Exact, db, rows + [f], buyer, seller, assetIn, assetOut, rate)
            == SettleFill(Exact, SettleEach(Exact, db, rows, buyer, seller, assetIn, assetOut, rate), f,
                          buyer, seller, assetIn, assetOut, rate).db
    decreases |rows|
  {
    hide SettleFill;
    if rows == [] {
      assert ([] + [f])[0] == f && ([] + [f])[1..] == [];
    } else {
      var next := SettleFill(Exact, db, rows[0], buyer, seller, assetIn, assetOut, rate).db;
      assert (rows + [f])[0] == rows[0] && (rows + [f])[1..] == rows[1..] + [f];
      OneAfterTheOther(next, rows[1..], f, buyer, seller, assetIn, assetOut, rate);
    }
  }

  /** What the worker makes of a delivery: nothing for a token it does not know or a settlement that fails; otherwise the
      settlement, or nothing more if there was one before, and then the status its settled quantity calls for. */
  lemma DeliveryEffect(db: Db, f: Id, i: Id, buyer: Account, seller: Account, tokenIn: Token, tokenOut: Token, rate: real)
    ensures var r := ProcessEvent(Exact, db, f, i, buyer, seller, tokenIn, tokenOut, rate);
            if tokenIn.Unknown? || tokenOut.Unknown? then r == Result(db, Skipped)
            else
              var settled := SettleFill(Exact, db, f, buyer, seller, tokenIn.asset, tokenOut.asset, rate);
              && r.outcome == settled.outcome
              && (f !in db.fills || (!db.fills[f].settled && !settled.outcome.Done?) ==> r.db == db)
              && (f in db.fills && (db.fills[f].settled || settled.outcome.Done?) ==>
                    && r.db == settled.db.(intents := r.db.intents)
                    && r.db.intents == if i !in db.intents then db.intents
                       else
                         var t, qty := db.intents[i], SettledQty(r.db.fills, i);
                         db.intents[i := if qty >= t.amountIn then t.(status := Completed)
                                         else if qty > 0 then t.(status := PartiallyFilled) else t])
  {
    hide SettledQty, FillBalances, FillLedger;
    if tokenIn.Known? && tokenOut.Known? {
      SettleRefused(db, f, buyer, seller, tokenIn.asset, tokenOut.asset, rate);
      assert i in db.intents ==> db.intents[i := db.intents[i]] == db.intents;
      var settled := SettleFill(Exact, db, f, buyer, seller, tokenIn.asset, tokenOut.asset, rate);
      assert settled.outcome.Done? || settled.db == db;
      assert settled.db.intents == db.intents;
      hide SettleFill;
    }
  }
}
