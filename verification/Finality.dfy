/** What has settled stays settled: nothing in any run settles a trade or a fill a second time. */
module Finality {
  import opened Auction
  import opened Accounting
  import opened Exchange
  import opened Runs
  import opened Conservation
  import opened Locks
  import opened ExactlyOnce
  import opened Range
  import opened Machine64

  ghost predicate TradeSettled(db: Db, id: Id) { id in db.trades && db.trades[id].settled }

  ghost predicate FillSettled(db: Db, f: Id) { f in db.fills && db.fills[f].settled }

  lemma SettleCallKeepsTrades(db: Db, c: SettleCall, id: Id)
    requires ChargeInv(db) && TradeSettled(db, id)
    ensures TradeSettled(ApplySettle(Exact, db, c).db, id)
  {
    assert id < db.nextId;
    hide SettleEach, FillBalances, FillLedger, SettledQty, TradeBalances, TradeLedger, ChargeInv, HasFills;
    if c.SettleIntentCall? {
      SettleEachTrades(Exact, db, c.rows, c.buyer, c.seller, c.assetIn, c.assetOut, c.rate);
    }
  }

  lemma StepKeepsTrade(db: Db, s: Step, id: Id)
    requires ChargeInv(db) && TradeSettled(db, id)
    ensures TradeSettled(Apply(Exact, db, s).db, id)
  {
    hide ApplyBalance, ApplyIntent, ApplyAuction, ApplySettle, ChargeInv;
    match s {
      case OnBalance(c) => BalanceCallTrades(db, c);
      case OnIntent(c) => IntentCallTrades(db, c);
      case OnAuction(c) => AuctionCallTrades(db, c);
      case OnSettle(c) => SettleCallKeepsTrades(db, c, id);
    }
  }

  lemma {:induction false} SettleEachKeepsFill(db: Db, rows: seq<Id>, buyer: Account, seller: Account,
                                               assetIn: Asset, assetOut: Asset, rate: real, f: Id)
    requires FillSettled(db, f)
    ensures FillSettled(SettleEach(Exact, db, rows, buyer, seller, assetIn, assetOut, rate), f)
    decreases |rows|
  {
    hide FillBalances, FillLedger;
    if rows != [] {
      SettleEachKeepsFill(SettleFill(Exact, db, rows[0], buyer, seller, assetIn, assetOut, rate).db, rows[1..],
                          buyer, seller, assetIn, assetOut, rate, f);
    }
  }

  lemma SettleCallKeepsFill(db: Db, c: SettleCall, f: Id)
    requires FillSettled(db, f)
    ensures FillSettled(ApplySettle(Exact, db, c).db, f)
  {
    hide SettleEach, FillBalances, FillLedger, SettledQty, TradeBalances, TradeLedger, HasFills;
    if c.SettleIntentCall? {
      SettleEachKeepsFill(db, c.rows, c.buyer, c.seller, c.assetIn, c.assetOut, c.rate, f);
    }
  }

  lemma AuctionCallKeepsFill(db: Db, c: AuctionCall, f: Id)
    requires ChargeInv(db) && FillSettled(db, f)
    ensures FillSettled(ApplyAuction(db, c).db, f)
  {
    assert forall g :: g in db.fills ==> g < db.nextId;
    hide ChargeInv, CloseDrafts, CloseStatus, InsertFills, HasFills, AcceptedBids, GenerateFills;
    if c.CloseCall? && c.intent in db.intents {
      FillsWhole(db.intents[c.intent].amountIn, AcceptedBids(db, c.intent));
      assert CloseDrafts(db, c.intent) == GenerateFills(db.intents[c.intent].amountIn, AcceptedBids(db, c.intent)) by { DraftsAre(db, c.intent); }
      InsertRows(db.fills, c.intent, CloseDrafts(db, c.intent), db.nextId);
    }
  }

  lemma DraftsAre(db: Db, i: Id)
    requires i in db.intents
    ensures CloseDrafts(db, i) == GenerateFills(db.intents[i].amountIn, AcceptedBids(db, i))
  {
  }

  lemma StepKeepsFill(db: Db, s: Step, f: Id)
    requires ChargeInv(db) && FillSettled(db, f)
    ensures FillSettled(Apply(Exact, db, s).db, f)
  {
    hide ApplyBalance, ApplyIntent, ApplyAuction, ApplySettle, ChargeInv;
    match s {
      case OnBalance(c) => BalanceCallTables(Exact, db, c);
      case OnIntent(c) => IntentCallTables(Exact, db, c);
      case OnAuction(c) => AuctionCallKeepsFill(db, c, f);
      case OnSettle(c) => SettleCallKeepsFill(db, c, f);
    }
  }

  /** Whatever has settled in `db` has settled in `db'`. */
  ghost predicate Carries(db: Db, db': Db) {
    && (forall id :: TradeSettled(db, id) ==> TradeSettled(db', id))
    && (forall f :: FillSettled(db, f) ==> FillSettled(db', f))
  }

  lemma StepCarries(db: Db, next: Db, s: Step)
    requires ChargeInv(next) && Carries(db, next)
    ensures Carries(db, Apply(Exact, next, s).db)
  {
    hide ChargeInv, Apply;
    forall id | TradeSettled(db, id) ensures TradeSettled(Apply(Exact, next, s).db, id) { StepKeepsTrade(next, s, id); }
    forall f | FillSettled(db, f) ensures FillSettled(Apply(Exact, next, s).db, f) { StepKeepsFill(next, s, f); }
  }

  /** After any run and any continuation of it. */
  lemma {:induction false} StaysSettled(solverAccounts: map<string, Account>, before: seq<Step>, after: seq<Step>)
    ensures Carries(Run(Exact, Start(solverAccounts), before).db, Run(Exact, Start(solverAccounts), before + after).db)
    decreases |after|
  {
    if after == [] {
      assert before + after == before;
    } else {
      var init, last := after[..|after| - 1], after[|after| - 1];
      assert (before + after)[..|before + after| - 1] == before + init && (before + after)[|before + after| - 1] == last;
      hide ChargeInv, Apply, Observe, Carries;
      StaysSettled(solverAccounts, before, init);
      ChargedExactlyOnce(solverAccounts, before + init);
      StepCarries(Run(Exact, Start(solverAccounts), before).db, Run(Exact, Start(solverAccounts), before + init).db, last);
    }
  }

  /** A trade that was settled anywhere in a run is refused ever after, and the refusal changes nothing. */
  lemma TradeSettlesOnce(solverAccounts: map<string, Account>, before: seq<Step>, after: seq<Step>, id: Id)
    requires SettleTrade(Exact, Run(Exact, Start(solverAccounts), before).db, id).outcome.Done?
    ensures var y := Run(Exact, Start(solverAccounts), before + [OnSettle(SettleTradeCall(id))] + after);
            SettleTrade(Exact, y.db, id) == Result(y.db, Rejected(AlreadySettled))
  {
    var x, step := Run(Exact, Start(solverAccounts), before), OnSettle(SettleTradeCall(id));
    assert (before + [step])[..|before|] == before;
    assert TradeSettled(Run(Exact, Start(solverAccounts), before + [step]).db, id);
    StaysSettled(solverAccounts, before + [step], after);
    hide Run, TradeBalances, TradeLedger;
  }

  /** A fill likewise, whatever parties, assets and rate the later settlement names. */
  lemma FillSettlesOnce(solverAccounts: map<string, Account>, before: seq<Step>, after: seq<Step>, f: Id,
                        buyer: Account, seller: Account, assetIn: Asset, assetOut: Asset, rate: real)
    requires FillSettled(Run(Exact, Start(solverAccounts), before).db, f)
    ensures var y := Run(Exact, Start(solverAccounts), before + after);
            SettleFill(Exact, y.db, f, buyer, seller, assetIn, assetOut, rate) == Result(y.db, Rejected(AlreadySettled))
  {
    StaysSettled(solverAccounts, before, after);
    hide Run, FillBalances, FillLedger;
  }
}
