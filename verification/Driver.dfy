/** The services driven by a sequence of calls. What was proved of runs on unbounded integers holds of the tables the
    services end up with. */
module Driver {
  import opened Accounting
  import opened Exchange
  import opened Service
  import opened Runs
  import opened Conservation
  import opened Locks
  import opened Range
  import opened Machine64

  method PerformBalance(store: Store, c: BalanceCall) returns (outcome: Outcome)
    modifies store
    ensures Result(store.View(), outcome) == ApplyBalance(Bits64, old(store.View()), c)
  {
    hide Deposit, Withdraw, LockBalance, UnlockBalance, Transfer;
    match c {
      case DepositCall(acct, asset, amount) => outcome := store.DepositFunds(acct, asset, amount);
      case WithdrawCall(acct, asset, amount) => outcome := store.WithdrawFunds(acct, asset, amount);
      case LockCall(acct, asset, amount) => outcome := store.LockFunds(acct, asset, amount);
      case UnlockCall(acct, asset, amount) => outcome := store.UnlockFunds(acct, asset, amount);
      case TransferCall(from, to, asset, amount) => outcome := store.TransferFunds(from, to, asset, amount);
    }
  }

  method PerformIntent(store: Store, c: IntentCall) returns (outcome: Outcome)
    modifies store
    ensures Result(store.View(), outcome) == ApplyIntent(Bits64, old(store.View()), c)
  {
    hide CreateIntent, AmendIntent, ReleaseIntent, ExpireIntent;
    match c {
      case CreateCall(acct, tokenIn, tokenOut, amountIn, minAmountOut, riskOk, minOrderSize) =>
        outcome := store.Create(acct, tokenIn, tokenOut, amountIn, minAmountOut, riskOk, minOrderSize);
      case AmendCall(i, acct, newAmountIn, newMinAmountOut, newLimitPrice) =>
        outcome := store.Amend(i, acct, newAmountIn, newMinAmountOut, newLimitPrice);
      case ReleaseCall(i, acct, failed) => outcome := store.Release(i, acct, if failed then Failed else Cancelled);
      case ExpireCall(i, found) => outcome := store.Expire(i, found);
    }
  }

  method PerformAuction(store: Store, c: AuctionCall) returns (outcome: Outcome)
    modifies store
    ensures Result(store.View(), outcome) == ApplyAuction(old(store.View()), c)
  {
    hide SubmitBid, BeginAuction, CloseAuction, StartExecution;
    match c {
      case BidCall(i, bid, riskOk) => outcome := store.Submit(i, bid, riskOk);
      case BeginCall(i) => outcome := store.Begin(i);
      case CloseCall(i) => outcome := store.Close(i);
      case ExecuteCall(i) => outcome := store.Execute(i);
    }
  }

  method PerformSettle(store: Store, c: SettleCall) returns (outcome: Outcome)
    modifies store
    ensures Result(store.View(), outcome) == ApplySettle(Bits64, old(store.View()), c)
  {
    hide ProcessEvent, SettleIntentFills, CreateTrade, SettleTrade;
    match c {
      case EventCall(f, i, buyer, seller, tokenIn, tokenOut, rate) =>
        outcome := store.OnExecutionCompleted(f, i, buyer, seller, tokenIn, tokenOut, rate);
      case SettleIntentCall(i, rows, buyer, seller, assetIn, assetOut, rate) =>
        outcome := store.SettleAll(i, rows, buyer, seller, assetIn, assetOut, rate);
      case NewTradeCall(t) => outcome := store.NewTrade(t);
      case SettleTradeCall(id) => outcome := store.SettleOneTrade(id);
    }
  }

  method Perform(store: Store, s: Step) returns (outcome: Outcome)
    modifies store
    ensures Result(store.View(), outcome) == Apply(Bits64, old(store.View()), s)
  {
    hide ApplyBalance, ApplyIntent, ApplyAuction, ApplySettle;
    match s {
      case OnBalance(c) => outcome := PerformBalance(store, c);
      case OnIntent(c) => outcome := PerformIntent(store, c);
      case OnAuction(c) => outcome := PerformAuction(store, c);
      case OnSettle(c) => outcome := PerformSettle(store, c);
    }
  }

  /** Any sequence of calls on fresh tables. */
  method PerformAll(solverAccounts: map<string, Account>, steps: seq<Step>) returns (store: Store)
    ensures fresh(store)
    ensures store.View() == Run(Bits64, Start(solverAccounts), steps).db
  {
    store := new Store(solverAccounts);
    for k := 0 to |steps|
      invariant fresh(store)
      invariant store.View() == Run(Bits64, Start(solverAccounts), steps[..k]).db
    {
      hide Apply, Observe;
      assert steps[..k + 1][..k] == steps[..k];
      var _ := Perform(store, steps[k]);
    }
    assert steps[..|steps|] == steps;
  }

  /** The guarantees of a run that keeps the contracts, on the tables of the services themselves: nothing negative, no
      sum that ever overflowed, totals equal to net deposits and locks equal to what open orders still need. */
  method PerformSound(solverAccounts: map<string, Account>, steps: seq<Step>) returns (store: Store, ghost h: History)
    requires Obeys(Start(solverAccounts), steps) && InRange(steps) && AllDistinct(steps)
    requires DepositsFit(Start(solverAccounts), steps)
    ensures fresh(store) && FitsAll(store.View().balances) && LockInv(store.View(), h.origin)
    ensures Conserved(World(store.View(), h)) && h == Run(Bits64, Start(solverAccounts), steps).h
  {
    hide Obeys, Apply, Observe, LockInv, FitsAll, Conserved, Good;
    store := PerformAll(solverAccounts, steps);
    h := Run(Bits64, Start(solverAccounts), steps).h;
    SoundRun(solverAccounts, steps);
    assert Run(Bits64, Start(solverAccounts), steps) == World(store.View(), h);
  }

  lemma SoundRun(solverAccounts: map<string, Account>, steps: seq<Step>)
    requires Obeys(Start(solverAccounts), steps) && InRange(steps) && AllDistinct(steps)
    requires DepositsFit(Start(solverAccounts), steps)
    ensures var x := Run(Bits64, Start(solverAccounts), steps);
            FitsAll(x.db.balances) && LockInv(x.db, x.h.origin) && Conserved(x)
  {
    MachineRunsExactly(solverAccounts, steps);
    var x := Run(Exact, Start(solverAccounts), steps);
    forall i | 0 <= i < |steps| ensures Sound(steps[i]) { assert RangeContract(steps[i]) && Distinct(steps[i]); }
    ConservationTheorem(solverAccounts, steps);
    LockAccounting(solverAccounts, steps);
    NoNegativeBalance(solverAccounts, steps);
    RunBounded(solverAccounts, steps);
    GoodFits(x.db.balances);
  }
}
