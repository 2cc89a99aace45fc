/** Exactly-once settlement: however often and in whatever order execution events are delivered, a fill is
    charged once, and an intent is Completed exactly when its auction filled it and every fill has settled. */
module ExactlyOnce {
  import opened Sums
  import opened Auction
  import opened Accounting
  import opened Exchange
  import opened Runs
  import opened Conservation
  import opened Locks

  // ---------------------------------------------------------------
  // Each fill is charged once
  // ---------------------------------------------------------------

  predicate ChargesFor(e: Entry, f: Id) { e.reference == f && e.referenceType.TRADE? && e.entryType.CREDIT? }

  /** How many ledger rows take money from somebody on behalf of the fill or trade `f`. */
  function Charges(l: seq<Entry>, f: Id): nat {
    if l == [] then 0
    else Charges(l[..|l| - 1], f) + if ChargesFor(l[|l| - 1], f) then 1 else 0
  }

  lemma PostCharges(l: seq<Entry>, e: Entry, f: Id)
    ensures Charges(Post(l, e), f) == Charges(l, f) + if ChargesFor(e, f) then 1 else 0
  {
    assert Post(l, e)[..|l|] == l;
  }

  lemma SwapCharges(l: seq<Entry>, buyer: Account, seller: Account, assetIn: Asset, assetOut: Asset,
                    paid: int, receives: int, out: int, reference: Id, f: Id)
    ensures Charges(PostSwap(l, buyer, seller, assetIn, assetOut, paid, receives, out, reference), f)
            == Charges(l, f) + if reference == f then 2 else 0
  {
    hide Charges, Post;
    var e1 := Entry(buyer, assetIn, paid, CREDIT, TRADE, reference);
    var e2 := Entry(buyer, assetOut, out, DEBIT, TRADE, reference);
    var e3 := Entry(seller, assetIn, receives, DEBIT, TRADE, reference);
    PostCharges(l, e1, f);
    PostCharges(Post(l, e1), e2, f);
    PostCharges(Post(Post(l, e1), e2), e3, f);
    PostCharges(Post(Post(Post(l, e1), e2), e3), Entry(seller, assetOut, out, CREDIT, TRADE, reference), f);
  }

  lemma FeeCharges(l: seq<Entry>, asset: Asset, platformFee: int, solverFee: int, reference: Id, f: Id)
    ensures Charges(PostFees(l, asset, platformFee, solverFee, reference), f) == Charges(l, f)
  {
    PostCharges(l, Entry(PLATFORM, asset, platformFee, DEBIT, FEE, reference), f);
    PostCharges(PostFee(l, asset, platformFee, reference), Entry(PLATFORM, asset, solverFee, DEBIT, FEE, reference), f);
  }

  /** A settled fill or trade has its two charge rows, an unsettled one none, and no row refers to an id not yet drawn. */
  ghost predicate ChargeInv(db: Db) {
    && (forall f :: f in db.fills ==> f < db.nextId && f !in db.trades)
    && (forall t :: t in db.trades ==> t < db.nextId)
    && (forall f :: f in db.fills ==> Charges(db.ledger, f) == if db.fills[f].settled then 2 else 0)
    && (forall t :: t in db.trades ==> Charges(db.ledger, t) == if db.trades[t].settled then 2 else 0)
    && (forall id :: db.nextId <= id ==> Charges(db.ledger, id) == 0)
  }

  lemma SettleFillCharges(db: Db, f: Id, buyer: Account, seller: Account, assetIn: Asset, assetOut: Asset, rate: real)
    requires ChargeInv(db)
    ensures ChargeInv(SettleFill(Exact, db, f, buyer, seller, assetIn, assetOut, rate).db)
  {
    hide FillBalances, FillLedger, Charges;
    var r := SettleFill(Exact, db, f, buyer, seller, assetIn, assetOut, rate);
    if r.outcome.Done? {
      forall g ensures Charges(r.db.ledger, g) == Charges(db.ledger, g) + if g == f then 2 else 0 {
        FillCharges(db, f, buyer, seller, assetIn, assetOut, rate, g);
      }
    }
  }

  lemma FillCharges(db: Db, f: Id, buyer: Account, seller: Account, assetIn: Asset, assetOut: Asset, rate: real, g: Id)
    requires f in db.fills
    ensures Charges(FillLedger(db, f, buyer, seller, assetIn, assetOut, rate), g)
            == Charges(db.ledger, g) + if g == f then 2 else 0
  {
    hide Charges, PostSwap, PostFees, SolverFee;
    var fill := db.fills[f];
    var fee := TotalFee(fill.filledQty, rate);
    SwapCharges(db.ledger, buyer, seller, assetIn, assetOut, fill.filledQty, fill.filledQty - fee, fill.qty, f, g);
    FeeCharges(PostSwap(db.ledger, buyer, seller, assetIn, assetOut, fill.filledQty, fill.filledQty - fee, fill.qty, f),
               assetIn, fee - SolverFee(fee), SolverFee(fee), f, g);
  }

  lemma {:induction false} SettleEachCharges(db: Db, rows: seq<Id>, buyer: Account, seller: Account,
                                             assetIn: Asset, assetOut: Asset, rate: real)
    requires ChargeInv(db)
    ensures ChargeInv(SettleEach(Exact, db, rows, buyer, seller, assetIn, assetOut, rate))
    decreases |rows|
  {
    if rows != [] {
      SettleFillCharges(db, rows[0], buyer, seller, assetIn, assetOut, rate);
      SettleEachCharges(SettleFill(Exact, db, rows[0], buyer, seller, assetIn, assetOut, rate).db, rows[1..],
                        buyer, seller, assetIn, assetOut, rate);
    }
  }

  lemma SettleTradeCharges(db: Db, id: Id)
    requires ChargeInv(db)
    ensures ChargeInv(SettleTrade(Exact, db, id).db)
  {
    hide Charges, TradeLedger, TradeBalances;
    var r := SettleTrade(Exact, db, id);
    if r.outcome.Done? {
      forall g ensures Charges(r.db.ledger, g) == Charges(db.ledger, g) + if g == id then 2 else 0 {
        TradeCharges(db.ledger, id, db.trades[id], g);
      }
    }
  }

  lemma TradeCharges(l: seq<Entry>, id: Id, t: Trade, g: Id)
    ensures Charges(TradeLedger(l, id, t), g) == Charges(l, g) + if g == id then 2 else 0
  {
    hide Charges, Post, PostSwap;
    var receives := t.amountIn - t.platformFee - t.solverFee;
    var l1 := PostSwap(l, t.buyer, t.seller, t.assetIn, t.assetOut, t.amountIn, receives, t.amountOut, id);
    var e := Entry(PLATFORM, t.assetIn, t.platformFee, DEBIT, FEE, id);
    SwapCharges(l, t.buyer, t.seller, t.assetIn, t.assetOut, t.amountIn, receives, t.amountOut, id, g);
    PostCharges(l1, e, g);
    PostCharges(Post(l1, e), Entry(t.solver, t.assetIn, t.solverFee, DEBIT, FEE, id), g);
  }

  /** The ledger grows by rows that refer to the id just drawn. */
  lemma FreshReference(db: Db, db': Db, e: seq<Entry>)
    requires ChargeInv(db) && db'.fills == db.fills && db'.trades == db.trades && db'.nextId == db.nextId + 1
    requires |e| <= 2 && (forall k :: 0 <= k < |e| ==> e[k].reference == db.nextId) && db'.ledger == db.ledger + e
    ensures ChargeInv(db')
  {
    forall g | g != db.nextId ensures Charges(db'.ledger, g) == Charges(db.ledger, g) {
      if |e| == 1 {
        PostCharges(db.ledger, e[0], g);
        assert db'.ledger == Post(db.ledger, e[0]);
      } else if |e| == 2 {
        PostCharges(db.ledger, e[0], g);
        PostCharges(Post(db.ledger, e[0]), e[1], g);
        assert db'.ledger == Post(Post(db.ledger, e[0]), e[1]);
      } else {
        assert db'.ledger == db.ledger;
      }
    }
  }

  lemma DepositCharges(db: Db, acct: Account, asset: Asset, amount: int)
    requires ChargeInv(db)
    ensures ChargeInv(Deposit(Exact, db, acct, asset, amount).db)
  {
    hide Charges, Row;
    if 0 < amount {
      FreshReference(db, Deposit(Exact, db, acct, asset, amount).db, [Entry(acct, asset, amount, DEBIT, DEPOSIT, db.nextId)]);
    }
  }

  lemma WithdrawCharges(db: Db, acct: Account, asset: Asset, amount: int)
    requires ChargeInv(db)
    ensures ChargeInv(Withdraw(Exact, db, acct, asset, amount).db)
  {
    var r := Withdraw(Exact, db, acct, asset, amount);
    if r.outcome.Done? { FreshReference(db, r.db, [Entry(acct, asset, amount, CREDIT, WITHDRAWAL, db.nextId)]); }
  }

  lemma TransferCharges(db: Db, from: Account, to: Account, asset: Asset, amount: int)
    requires ChargeInv(db)
    ensures ChargeInv(Transfer(Exact, db, from, to, asset, amount).db)
  {
    var r := Transfer(Exact, db, from, to, asset, amount);
    if r.outcome.Done? {
      var e := [Entry(from, asset, amount, DEBIT, TRADE, db.nextId), Entry(to, asset, amount, CREDIT, TRADE, db.nextId)];
      assert r.db.ledger == db.ledger + e;
      FreshReference(db, r.db, e);
    }
  }

  /** A call that changes balances only. */
  lemma OnlyBalances(db: Db, b: Balances)
    requires ChargeInv(db)
    ensures ChargeInv(db.(balances := b))
  {
    hide Charges;
  }

  lemma BalanceCallCharges(db: Db, c: BalanceCall)
    requires ChargeInv(db)
    ensures ChargeInv(ApplyBalance(Exact, db, c).db)
  {
    hide ChargeInv, Deposit, Withdraw, Transfer, Row;
    match c {
      case DepositCall(acct, asset, amount) =>
        DepositCharges(db, acct, asset, amount);
      case WithdrawCall(acct, asset, amount) => WithdrawCharges(db, acct, asset, amount);
      case LockCall(_, _, _) => OnlyBalances(db, ApplyBalance(Exact, db, c).db.balances);
      case UnlockCall(_, _, _) => OnlyBalances(db, ApplyBalance(Exact, db, c).db.balances);
      case TransferCall(from, to, asset, amount) => TransferCharges(db, from, to, asset, amount);
    }
  }

  lemma IntentCallCharges(db: Db, c: IntentCall)
    requires ChargeInv(db)
    ensures ChargeInv(ApplyIntent(Exact, db, c).db)
  {
    hide Charges, Row, Shift, Relock;
    match c {
      case CreateCall(_, _, _, _, _, _, _) =>
      case AmendCall(_, _, _, _, _) =>
      case ReleaseCall(_, _, _) =>
      case ExpireCall(_, _) =>
    }
  }

  lemma CloseCharges(db: Db, i: Id)
    requires ChargeInv(db) && i in db.intents
    ensures ChargeInv(CloseAuction(db, i).db)
  {
    FillsWhole(db.intents[i].amountIn, AcceptedBids(db, i));
    InsertRows(db.fills, i, CloseDrafts(db, i), db.nextId);
    InsertFresh(db.fills, i, CloseDrafts(db, i), db.nextId);
    InsertCharges(db, i, CloseDrafts(db, i), CloseAuction(db, i).db);
  }

  lemma {:induction false} InsertFresh(fills: map<Id, Fill>, i: Id, drafts: seq<Draft>, firstId: Id)
    ensures forall f :: f in InsertFills(fills, i, drafts, firstId) && f !in fills ==> firstId <= f
    decreases |drafts|
  {
    if drafts != [] {
      var d := drafts[0];
      InsertFresh(fills[firstId := Fill(i, d.solver, d.price, d.qty, d.filledQty, false)], i, drafts[1..], firstId + 1);
    }
  }

  lemma InsertCharges(db: Db, i: Id, drafts: seq<Draft>, db': Db)
    requires ChargeInv(db) && db'.ledger == db.ledger && db'.trades == db.trades && db'.nextId == db.nextId + |drafts|
    requires db'.fills == InsertFills(db.fills, i, drafts, db.nextId)
    requires OldOrFresh(db.fills, db'.fills, i, db'.nextId)
    requires forall f :: f in db'.fills && f !in db.fills ==> db.nextId <= f
    ensures ChargeInv(db')
  {
    forall f | f in db'.fills ensures f < db'.nextId && f !in db'.trades
                              ensures Charges(db'.ledger, f) == if db'.fills[f].settled then 2 else 0 {
      if f in db.fills {
        assert db'.fills[f] == db.fills[f];
      }
    }
  }

  lemma StepCharges(db: Db, s: Step)
    requires ChargeInv(db)
    ensures ChargeInv(Apply(Exact, db, s).db)
  {
    hide Charges, ApplyBalance, ApplyIntent, ApplySettle;
    match s {
      case OnBalance(c) => BalanceCallCharges(db, c);
      case OnIntent(c) => IntentCallCharges(db, c);
      case OnAuction(c) => if c.CloseCall? && c.intent in db.intents { CloseCharges(db, c.intent); }
      case OnSettle(c) => SettleCallCharges(db, c);
    }
  }

  lemma SettleCallCharges(db: Db, c: SettleCall)
    requires ChargeInv(db)
    ensures ChargeInv(ApplySettle(Exact, db, c).db)
  {
    hide Charges, SettleFill, SettleEach, SettleTrade, SettledQty;
    match c {
      case EventCall(f, i, buyer, seller, tokenIn, tokenOut, rate) =>
        if tokenIn.Known? && tokenOut.Known? {
          SettleFillCharges(db, f, buyer, seller, tokenIn.asset, tokenOut.asset, rate);
        }
      case SettleIntentCall(i, rows, buyer, seller, assetIn, assetOut, rate) =>
        SettleEachCharges(db, rows, buyer, seller, assetIn, assetOut, rate);
      case NewTradeCall(_) =>
      case SettleTradeCall(id) => SettleTradeCharges(db, id);
    }
  }

  /** In every run, with any redelivery, the ledger holds the charges of a fill or a trade once if it has settled and
      not at all if it has not. */
  lemma {:induction false} ChargedExactlyOnce(solverAccounts: map<string, Account>, steps: seq<Step>)
    ensures ChargeInv(Run(Exact, Start(solverAccounts), steps).db)
  {
    if steps != [] {
      var init := steps[..|steps| - 1];
      ChargedExactlyOnce(solverAccounts, init);
      StepCharges(Run(Exact, Start(solverAccounts), init).db, steps[|steps| - 1]);
    }
  }

  // ---------------------------------------------------------------
  // Completed means filled and settled
  // ---------------------------------------------------------------

  ghost predicate SettledInFull(db: Db, i: Id)
    requires i in db.intents
  {
    db.intents[i].amountIn > 0 && SettledQty(db.fills, i) == db.intents[i].amountIn
  }

  /** Whether a delivery gets as far as the status. */
  predicate Handled(outcome: Outcome) { outcome.Done? || outcome == Rejected(AlreadySettled) }

  /** `execute_fills` writes Executing over whatever the status was. The intents it did this to after they had settled
      in full are stale, until a delivery for one of their fills or a settlement of the whole intent comes along. */
  ghost function NextStale(db: Db, s: Step, stale: set<Id>): set<Id> {
    if s.OnAuction? && s.a.ExecuteCall? && s.a.intent in db.intents && HasFills(db.fills, s.a.intent)
       && SettledInFull(db, s.a.intent) then stale + {s.a.intent}
    else if s.OnSettle? && s.s.EventCall? && Handled(ApplySettle(Exact, db, s.s).outcome) then stale - {s.s.intent}
    else if s.OnSettle? && s.s.SettleIntentCall? then stale - {s.s.intent}
    else stale
  }

  ghost function Stale(x: World, steps: seq<Step>): set<Id> {
    if steps == [] then {}
    else NextStale(Run(Exact, x, steps[..|steps| - 1]).db, steps[|steps| - 1], Stale(x, steps[..|steps| - 1]))
  }

  /** Completed says exactly that the order has settled in full, unless the intent is stale. */
  ghost predicate StatusOk(db: Db, stale: set<Id>, i: Id)
    requires i in db.intents
  {
    db.intents[i].amountIn > 0 ==> (db.intents[i].status.Completed? <==> SettledInFull(db, i) && i !in stale)
  }

  /** Right for every intent, or for every intent but `i` while its settlement is under way. */
  ghost predicate StatusInv(db: Db, stale: set<Id>) { forall i :: i in db.intents ==> StatusOk(db, stale, i) }

  ghost predicate StatusInvBut(db: Db, stale: set<Id>, i: Id) { forall j :: j in db.intents && j != i ==> StatusOk(db, stale, j) }

  lemma OtherRowsOk(db: Db, db': Db, stale: set<Id>, i: Id)
    requires StatusInvBut(db, stale, i) && db'.intents.Keys == db.intents.Keys + {i}
    requires forall j :: j in db.intents && j != i ==>
               db'.intents[j] == db.intents[j] && SettledQty(db'.fills, j) == SettledQty(db.fills, j)
    ensures StatusInvBut(db', stale, i)
  {
    forall j | j in db'.intents && j != i ensures StatusOk(db', stale, j) { assert StatusOk(db, stale, j); }
  }

  lemma StaleElsewhere(db: Db, stale: set<Id>, stale': set<Id>, i: Id)
    requires StatusInvBut(db, stale, i) && (stale' == stale - {i} || stale' == stale + {i})
    ensures StatusInvBut(db, stale', i)
  {
    forall j | j in db.intents && j != i ensures StatusOk(db, stale', j) { assert StatusOk(db, stale, j); }
  }

  lemma IntentCallStatus(db: Db, stale: set<Id>, o: Origin, c: IntentCall)
    requires StatusInv(db, stale) && LockInv(db, o) && IntentContract(db, o, c)
    ensures StatusInv(ApplyIntent(Exact, db, c).db, stale)
  {
    var r := ApplyIntent(Exact, db, c);
    hide SumMap, SettledQty, FilledQty, ApplyIntent, LocksMatch;
    if r.db != db {
      var i := if c.CreateCall? then db.nextId else c.intent;
      IntentCallOnly(db, c, i);
      if i in db.intents { assert IntentRow(db, o, i); }
      UnfilledIntent(db, o, c, i);
      OtherRowsOk(db, r.db, stale, i);
      assert StatusOk(r.db, stale, i);
    }
  }

  /** An intent call that commits leaves one row changed, and no longer Completed. */
  lemma IntentCallOnly(db: Db, c: IntentCall, i: Id)
    requires ApplyIntent(Exact, db, c).db != db && i == if c.CreateCall? then db.nextId else c.intent
    ensures var db' := ApplyIntent(Exact, db, c).db;
            && db'.fills == db.fills && db'.intents.Keys == db.intents.Keys + {i} && !db'.intents[i].status.Completed?
            && (forall j :: j in db.intents && j != i ==> db'.intents[j] == db.intents[j])
            && (c.AmendCall? || c.ExpireCall? ==> i in db.intents && Amendable(db.intents[i].status))
            && (c.ReleaseCall? ==> i in db.intents)
  {
    hide Row, Shift, Relock, AmendDiff, AmendedAmount;
    match c {
      case CreateCall(_, _, _, _, _, _, _) =>
      case AmendCall(_, _, _, _, _) =>
      case ReleaseCall(_, _, _) =>
      case ExpireCall(_, _) =>
    }
  }

  lemma UnfilledIntent(db: Db, o: Origin, c: IntentCall, i: Id)
    requires Shape(db, o) && IntentContract(db, o, c) && i == if c.CreateCall? then db.nextId else c.intent
    requires c.AmendCall? || c.ExpireCall? ==> i in db.intents && Amendable(db.intents[i].status)
    requires c.ReleaseCall? ==> i in db.intents
    ensures SettledQty(db.fills, i) == 0
  {
    assert forall f :: f in db.fills ==> FillRow(db, o, f);
    if i in db.intents { assert IntentRow(db, o, i); }
    NoFillsNoSum(db.fills, i);
  }

  lemma AuctionCallStatus(db: Db, stale: set<Id>, o: Origin, c: AuctionCall)
    requires StatusInv(db, stale) && LockInv(db, o) && AuctionContract(db, o, c)
    ensures StatusInv(ApplyAuction(db, c).db, NextStale(db, OnAuction(c), stale))
  {
    LockShape(db, o);
    hide SumMap, SettledQty, LockInv, CloseDrafts, CloseStatus, WithFills, HasFills, Shape;
    match c {
      case BidCall(i, bid, riskOk) => SameStatus(db, SubmitBid(db, i, bid, riskOk).db, stale);
      case BeginCall(i) => if i in db.intents { UnsettledStatus(db, stale, o, i, Bidding); }
      case CloseCall(i) => if i in db.intents { CloseStatusOk(db, stale, o, i); }
      case ExecuteCall(i) => if i in db.intents && HasFills(db.fills, i) { Restarted(db, stale, i); }
    }
  }

  lemma LockShape(db: Db, o: Origin)
    requires LockInv(db, o)
    ensures Shape(db, o)
  {
  }

  /** Restarting execution is harmless before the order has settled in full, and makes it stale afterwards. */
  lemma Restarted(db: Db, stale: set<Id>, i: Id)
    requires StatusInv(db, stale) && i in db.intents
    ensures StatusInv(SetStatus(db, i, Executing), if SettledInFull(db, i) then stale + {i} else stale)
  {
    hide SumMap, SettledQty;
    var db', stale' := SetStatus(db, i, Executing), if SettledInFull(db, i) then stale + {i} else stale;
    OtherRowsOk(db, db', stale, i);
    if SettledInFull(db, i) { StaleElsewhere(db', stale, stale', i); }
    assert StatusOk(db', stale', i);
  }

  lemma UnsettledStatus(db: Db, stale: set<Id>, o: Origin, i: Id, status: IntentStatus)
    requires StatusInv(db, stale) && Shape(db, o) && i in db.intents && i !in o.closed && !status.Completed?
    ensures StatusInv(SetStatus(db, i, status), stale)
  {
    hide SumMap, SettledQty;
    AmendableUnfilled(db, o, i);
    OtherRowsOk(db, SetStatus(db, i, status), stale, i);
    assert StatusOk(SetStatus(db, i, status), stale, i);
  }

  lemma CloseStatusOk(db: Db, stale: set<Id>, o: Origin, i: Id)
    requires StatusInv(db, stale) && Shape(db, o) && i in db.intents && i !in o.closed
    ensures StatusInv(CloseAuction(db, i).db, stale)
  {
    hide SettledQty, StatusInv, CloseDrafts, InsertFills;
    UnsettledStatus(db, stale, o, i, CloseStatus(db, i));
    InsertStatusOk(SetStatus(db, i, CloseStatus(db, i)), stale, i, CloseDrafts(db, i), CloseAuction(db, i).db);
  }

  lemma InsertStatusOk(db: Db, stale: set<Id>, i: Id, drafts: seq<Draft>, db': Db)
    requires StatusInv(db, stale) && (forall f :: f in db.fills ==> f < db.nextId)
    requires db'.intents == db.intents && db'.fills == InsertFills(db.fills, i, drafts, db.nextId)
    ensures StatusInv(db', stale)
  {
    forall j | j in db'.intents ensures StatusOk(db', stale, j) {
      assert StatusOk(db, stale, j);
      InsertSums(db.fills, i, drafts, db.nextId, j);
    }
  }

  /** Settling a fill disturbs the status of its own intent only. */
  lemma SettleFillStatus(db: Db, stale: set<Id>, f: Id, i: Id, buyer: Account, seller: Account, assetIn: Asset, assetOut: Asset,
                         rate: real)
    requires StatusInvBut(db, stale, i) && (f in db.fills ==> db.fills[f].intent == i)
    ensures StatusInvBut(SettleFill(Exact, db, f, buyer, seller, assetIn, assetOut, rate).db, stale, i)
  {
    hide SettledQty, FillBalances, FillLedger;
    var r := SettleFill(Exact, db, f, buyer, seller, assetIn, assetOut, rate);
    if r.outcome.Done? {
      forall j | j in r.db.intents && j != i ensures StatusOk(r.db, stale, j) {
        assert StatusOk(db, stale, j);
        MarkSettled(db.fills, f, j);
      }
    }
  }

  lemma {:induction false} SettleEachStatus(db: Db, stale: set<Id>, rows: seq<Id>, i: Id, buyer: Account, seller: Account,
                                            assetIn: Asset, assetOut: Asset, rate: real)
    requires StatusInvBut(db, stale, i) && (forall r :: r in rows && r in db.fills ==> db.fills[r].intent == i)
    ensures StatusInvBut(SettleEach(Exact, db, rows, buyer, seller, assetIn, assetOut, rate), stale, i)
    decreases |rows|
  {
    hide StatusInvBut, FillBalances, FillLedger;
    if rows != [] {
      SettleFillStatus(db, stale, rows[0], i, buyer, seller, assetIn, assetOut, rate);
      SettleEachStatus(SettleFill(Exact, db, rows[0], buyer, seller, assetIn, assetOut, rate).db, stale, rows[1..], i,
                       buyer, seller, assetIn, assetOut, rate);
    }
  }

  /** After an event for `f` has been handled some of its intent has settled. */
  lemma SomethingSettled(db: Db, o: Origin, f: Id, i: Id)
    requires Shape(db, o) && f in db.fills && db.fills[f].intent == i && db.fills[f].settled
    ensures HasFills(db.fills, i) && i in db.intents && 0 < SettledQty(db.fills, i) <= db.intents[i].amountIn
  {
    assert forall g :: g in db.fills ==> FillRow(db, o, g);
    assert IntentRow(db, o, i);
    SettledWithinFilled(db.fills, i);
    SumAtLeast(db.fills, SettledOf(i), f);
  }

  /** The worker's incremental status is the one `compute_intent_status` would give. */
  lemma WorkerAgreesWithEngine(db: Db, o: Origin, f: Id, i: Id)
    requires Shape(db, o) && f in db.fills && db.fills[f].intent == i && db.fills[f].settled
    ensures i in db.intents && UpdateStatus(db, i) == SetStatus(db, i, ComputeStatus(db, i))
  {
    SomethingSettled(db, o, f, i);
  }

  lemma ComputedStatusOk(db: Db, stale: set<Id>, o: Origin, i: Id)
    requires Shape(db, o) && StatusInvBut(db, stale, i) && i in db.intents
    ensures StatusInv(SetStatus(db, i, ComputeStatus(db, i)), stale - {i})
  {
    var db' := SetStatus(db, i, ComputeStatus(db, i));
    assert IntentRow(db, o, i) && forall g :: g in db.fills ==> FillRow(db, o, g);
    hide SumMap, Shape;
    SettledWithinFilled(db.fills, i);
    if !HasFills(db.fills, i) { NoFillsNoSum(db.fills, i); }
    hide SettledQty, FilledQty, HasFills;
    OtherRowsOk(db, db', stale, i);
    StaleElsewhere(db', stale, stale - {i}, i);
    assert StatusOk(db', stale - {i}, i);
  }

  lemma EventStatus(db: Db, stale: set<Id>, o: Origin, f: Id, i: Id, buyer: Account, seller: Account,
                    tokenIn: Token, tokenOut: Token, rate: real)
    requires StatusInv(db, stale) && LockInv(db, o) && tokenIn.Known? && tokenOut.Known?
    requires FillContract(db, o, f, i, buyer, tokenIn.asset)
    ensures var r := ProcessEvent(Exact, db, f, i, buyer, seller, tokenIn, tokenOut, rate);
            StatusInv(r.db, if Handled(r.outcome) then stale - {i} else stale)
  {
    hide SettledQty, FillBalances, FillLedger, LocksMatch, Shape, UpdateStatus, ComputeStatus, SetStatus;
    var r := SettleFill(Exact, db, f, buyer, seller, tokenIn.asset, tokenOut.asset, rate);
    if Handled(r.outcome) {
      SettleFillLocks(db, o, f, i, buyer, seller, tokenIn.asset, tokenOut.asset, rate);
      SettleFillStatus(db, stale, f, i, buyer, seller, tokenIn.asset, tokenOut.asset, rate);
      WorkerAgreesWithEngine(r.db, o, f, i);
      hide StatusInvBut, StatusInv, SetStatus, Shape, UpdateStatus, ComputeStatus;
      ComputedStatusOk(r.db, stale, o, i);
    }
  }

  lemma SettleIntentStatus(db: Db, stale: set<Id>, o: Origin, i: Id, rows: seq<Id>, buyer: Account, seller: Account,
                           assetIn: Asset, assetOut: Asset, rate: real)
    requires StatusInv(db, stale) && LockInv(db, o) && forall r :: r in rows ==> FillContract(db, o, r, i, buyer, assetIn)
    ensures StatusInv(SettleIntentFills(Exact, db, i, rows, buyer, seller, assetIn, assetOut, rate).db, stale - {i})
  {
    hide SettledQty, FilledQty, SettleEach, LocksMatch;
    var db' := SettleEach(Exact, db, rows, buyer, seller, assetIn, assetOut, rate);
    SettleEachLocks(db, o, rows, i, buyer, seller, assetIn, assetOut, rate);
    assert forall r :: r in rows && r in db.fills ==> FillContract(db, o, r, i, buyer, assetIn);
    SettleEachStatus(db, stale, rows, i, buyer, seller, assetIn, assetOut, rate);
    hide Shape, FillContract;
    if i in db'.intents {
      hide StatusInvBut, StatusInv, ComputeStatus, SetStatus;
      LockShape(db', o);
      ComputedStatusOk(db', stale, o, i);
    } else {
      StaleElsewhere(db', stale, stale - {i}, i);
    }
  }

  lemma SameStatus(db: Db, db': Db, stale: set<Id>)
    requires StatusInv(db, stale) && db'.intents == db.intents && db'.fills == db.fills
    ensures StatusInv(db', stale)
  {
    forall j | j in db'.intents ensures StatusOk(db', stale, j) { assert StatusOk(db, stale, j); }
  }

  lemma SettleCallStatus(db: Db, stale: set<Id>, o: Origin, c: SettleCall)
    requires StatusInv(db, stale) && LockInv(db, o) && SettleContract(db, o, c)
    ensures StatusInv(ApplySettle(Exact, db, c).db, NextStale(db, OnSettle(c), stale))
  {
    hide StatusInv, LockInv, FillContract, SettleFill, SettleIntentFills, TradeBalances, TradeLedger, SettledQty;
    match c {
      case EventCall(f, i, buyer, seller, tokenIn, tokenOut, rate) =>
        if tokenIn.Known? && tokenOut.Known? { EventStatus(db, stale, o, f, i, buyer, seller, tokenIn, tokenOut, rate); }
      case SettleIntentCall(i, rows, buyer, seller, assetIn, assetOut, rate) =>
        SettleIntentStatus(db, stale, o, i, rows, buyer, seller, assetIn, assetOut, rate);
      case NewTradeCall(t) => SameStatus(db, CreateTrade(db, t).db, stale);
      case SettleTradeCall(id) => SameStatus(db, SettleTrade(Exact, db, id).db, stale);
    }
  }

  lemma BalanceCallBook(db: Db, c: BalanceCall)
    ensures ApplyBalance(Exact, db, c).db.intents == db.intents
  {
    hide Row, Credit, Debit;
    match c {
      case DepositCall(_, _, _) =>
      case WithdrawCall(_, _, _) =>
      case LockCall(_, _, _) =>
      case UnlockCall(_, _, _) =>
      case TransferCall(_, _, _, _) =>
    }
  }

  lemma StepStatus(db: Db, stale: set<Id>, o: Origin, s: Step)
    requires StatusInv(db, stale) && LockInv(db, o) && Contract(db, o, s)
    ensures StatusInv(Apply(Exact, db, s).db, NextStale(db, s, stale))
  {
    hide StatusInv, LockInv, ApplyBalance, ApplyIntent, ApplyAuction, ApplySettle, SettledInFull;
    match s {
      case OnBalance(c) =>
        BalanceCallTables(Exact, db, c);
        BalanceCallBook(db, c);
        SameStatus(db, ApplyBalance(Exact, db, c).db, stale);
      case OnIntent(c) => IntentCallStatus(db, stale, o, c);
      case OnAuction(c) => AuctionCallStatus(db, stale, o, c);
      case OnSettle(c) => SettleCallStatus(db, stale, o, c);
    }
  }

  /** All of an order has settled exactly when its auction filled it and each of its fills has settled. */
  lemma AllSettledIff(db: Db, o: Origin, i: Id)
    requires Shape(db, o) && i in db.intents
    ensures SettledQty(db.fills, i) == db.intents[i].amountIn <==>
            FilledQty(db.fills, i) == db.intents[i].amountIn
            && forall f :: f in db.fills && db.fills[f].intent == i ==> db.fills[f].settled
  {
    assert IntentRow(db, o, i) && forall g :: g in db.fills ==> FillRow(db, o, g);
    SettledWithinFilled(db.fills, i);
    if f :| f in db.fills && db.fills[f].intent == i && !db.fills[f].settled {
      MarkSettled(db.fills, f, i);
      SettledWithinFilled(db.fills[f := db.fills[f].(settled := true)], i);
    } else {
      SumAgree(db.fills, db.fills, SettledOf(i), FilledOf(i));
    }
  }

  lemma {:induction false} StatusAlwaysOk(solverAccounts: map<string, Account>, steps: seq<Step>)
    requires Obeys(Start(solverAccounts), steps)
    ensures StatusInv(Run(Exact, Start(solverAccounts), steps).db, Stale(Start(solverAccounts), steps))
  {
    if steps != [] {
      var init := steps[..|steps| - 1];
      var y := Run(Exact, Start(solverAccounts), init);
      StatusAlwaysOk(solverAccounts, init);
      LockAccounting(solverAccounts, init);
      hide StatusInv, LockInv, Contract, Apply, Observe, NextStale;
      StepStatus(y.db, Stale(Start(solverAccounts), init), y.h.origin, steps[|steps| - 1]);
    }
  }

  /** In every run, an intent with a positive amount is Completed exactly when its auction filled it in full, every one
      of its fills has settled, and execution was not restarted since without a delivery after it. */
  lemma CompletedIffSettled(solverAccounts: map<string, Account>, steps: seq<Step>, i: Id)
    requires Obeys(Start(solverAccounts), steps)
    requires i in Run(Exact, Start(solverAccounts), steps).db.intents
    requires Run(Exact, Start(solverAccounts), steps).db.intents[i].amountIn > 0
    ensures var db := Run(Exact, Start(solverAccounts), steps).db;
            db.intents[i].status.Completed? <==>
              && FilledQty(db.fills, i) == db.intents[i].amountIn
              && (forall f :: f in db.fills && db.fills[f].intent == i ==> db.fills[f].settled)
              && i !in Stale(Start(solverAccounts), steps)
  {
    var x := Run(Exact, Start(solverAccounts), steps);
    StatusAlwaysOk(solverAccounts, steps);
    LockAccounting(solverAccounts, steps);
    assert StatusOk(x.db, Stale(Start(solverAccounts), steps), i);
    AllSettledIff(x.db, x.h.origin, i);
  }

  /** Which status a settlement of the whole intent writes, said of its fills one by one: Failed without any, Executing
      while none has settled, PartiallyFilled once some have, Completed when they have all settled and fill the order. */
  lemma StatusWritten(db: Db, o: Origin, i: Id)
    requires Shape(db, o) && i in db.intents && db.intents[i].amountIn > 0
    ensures var status := ComputeStatus(db, i);
            var any := exists f :: f in db.fills && db.fills[f].intent == i;
            var some := exists f :: f in db.fills && db.fills[f].intent == i && db.fills[f].settled;
            var full := (forall f :: f in db.fills && db.fills[f].intent == i ==> db.fills[f].settled)
                        && FilledQty(db.fills, i) == db.intents[i].amountIn;
            status == if !any then Failed else if !some then Executing else if full then Completed else PartiallyFilled
  {
    assert forall g :: g in db.fills ==> FillRow(db, o, g);
    assert IntentRow(db, o, i);
    SettledWithinFilled(db.fills, i);
    AllSettledIff(db, o, i);
    hide SumMap, FilledQty, Shape;
    if f :| f in db.fills && db.fills[f].intent == i && db.fills[f].settled {
      SumAtLeast(db.fills, SettledOf(i), f);
    } else {
      SumZero(db.fills, SettledOf(i));
    }
  }

  /** A restart takes Completed away from an order that has settled in full; the next delivery for any of its fills,
      whatever parties and rate it names, gives it back and touches neither balances, ledger nor fills. */
  lemma RedeliveryRepairs(db: Db, o: Origin, i: Id, f: Id, buyer: Account, seller: Account, tokenIn: Token, tokenOut: Token, rate: real)
    requires LockInv(db, o) && i in db.intents && SettledInFull(db, i)
    requires f in db.fills && db.fills[f].intent == i && tokenIn.Known? && tokenOut.Known?
    ensures var restarted := StartExecution(db, i).db;
            var repaired := ProcessEvent(Exact, restarted, f, i, buyer, seller, tokenIn, tokenOut, rate);
            && restarted == SetStatus(db, i, Executing)
            && repaired.outcome == Rejected(AlreadySettled) && repaired.db == SetStatus(db, i, Completed)
  {
    assert HasFills(db.fills, i);
    AllSettledIff(db, o, i);
    hide SettledQty, HasFills, FilledQty;
    assert db.fills[f].settled;
    var restarted := SetStatus(db, i, Executing);
    assert StartExecution(db, i).db == restarted;
    assert restarted.intents[i := restarted.intents[i].(status := Completed)]
           == db.intents[i := db.intents[i].(status := Completed)];
  }

  /** An event that names another intent than its fill's own settles the fill but updates the other status: every status
      stays right exactly when the fill is not the one that completes its order. */
  lemma MisdirectedEventIff(db: Db, stale: set<Id>, o: Origin, f: Id, i: Id, buyer: Account, seller: Account,
                            tokenIn: Token, tokenOut: Token, rate: real)
    requires StatusInv(db, stale) && Shape(db, o) && tokenIn.Known? && tokenOut.Known?
    requires f in db.fills && db.fills[f].intent != i && db.fills[f].intent !in stale
    requires SettleFill(Exact, db, f, buyer, seller, tokenIn.asset, tokenOut.asset, rate).outcome.Done?
    ensures var j := db.fills[f].intent;
            && j in db.intents
            && (StatusInv(ProcessEvent(Exact, db, f, i, buyer, seller, tokenIn, tokenOut, rate).db, stale - {i}) <==>
                  SettledQty(db.fills, j) + db.fills[f].filledQty != db.intents[j].amountIn)
  {
    var j, r := db.fills[f].intent, SettleFill(Exact, db, f, buyer, seller, tokenIn.asset, tokenOut.asset, rate);
    OneMoreSettled(db, o, f);
    assert i in db.intents ==> SettledQty(db.fills, i) <= db.intents[i].amountIn by {
      if i in db.intents { assert IntentRow(db, o, i); SettledWithinFilled(db.fills, i); }
    }
    forall k | k != j ensures SettledQty(r.db.fills, k) == SettledQty(db.fills, k) { MarkSettled(db.fills, f, k); }
    assert r.db.intents == db.intents && SettledQty(r.db.fills, j) == SettledQty(db.fills, j) + db.fills[f].filledQty;
    var db' := ProcessEvent(Exact, db, f, i, buyer, seller, tokenIn, tokenOut, rate).db;
    assert db' == UpdateStatus(r.db, i);
    hide SumMap, SettleFill, ProcessEvent, FilledQty, SettledQty, Shape;
    StatusElsewhere(db, r.db, stale, i, j);
  }

  lemma OneMoreSettled(db: Db, o: Origin, f: Id)
    requires Shape(db, o) && f in db.fills && !db.fills[f].settled
    ensures var j, fills' := db.fills[f].intent, db.fills[f := db.fills[f].(settled := true)];
            && j in db.intents && db.fills[f].filledQty > 0 && (forall g :: g in db.fills ==> db.fills[g].filledQty > 0)
            && SettledQty(fills', j) == SettledQty(db.fills, j) + db.fills[f].filledQty <= db.intents[j].amountIn
            && 0 <= SettledQty(db.fills, j)
  {
    hide SumMap;
    var j, fills' := db.fills[f].intent, db.fills[f := db.fills[f].(settled := true)];
    assert forall g :: g in db.fills ==> FillRow(db, o, g);
    assert IntentRow(db, o, j);
    MarkSettled(db.fills, f, j);
    SettledWithinFilled(fills', j);
    SettledWithinFilled(db.fills, j);
    hide FilledQty, SettledQty;
  }

  /** More of `j` settles while the status of `i` is brought up to date. */
  lemma StatusElsewhere(db: Db, next: Db, stale: set<Id>, i: Id, j: Id)
    requires StatusInv(db, stale) && next.intents == db.intents && i != j && j in db.intents && j !in stale
    requires SettledQty(db.fills, j) < SettledQty(next.fills, j) <= db.intents[j].amountIn && 0 < db.intents[j].amountIn
    requires forall k :: k != j ==> SettledQty(next.fills, k) == SettledQty(db.fills, k)
    requires i in db.intents ==> SettledQty(db.fills, i) <= db.intents[i].amountIn
    ensures StatusInv(UpdateStatus(next, i), stale - {i}) <==> SettledQty(next.fills, j) != db.intents[j].amountIn
  {
    hide SumMap, SettledQty, UpdateStatus;
    var db' := UpdateStatus(next, i);
    UpdatesOneRow(next, i);
    assert StatusOk(db, stale, j);
    forall k | k in db.intents && k != j ensures StatusOk(db', stale - {i}, k) {
      assert StatusOk(db, stale, k);
      UpdatedStatusOk(next, stale, i, k);
    }
    assert StatusOk(db', stale - {i}, j) <==> SettledQty(next.fills, j) != db.intents[j].amountIn;
  }

  lemma UpdatesOneRow(db: Db, i: Id)
    ensures var db' := UpdateStatus(db, i);
            && db'.intents.Keys == db.intents.Keys && db'.fills == db.fills
            && forall k :: k in db.intents && k != i ==> db'.intents[k] == db.intents[k]
  {
    hide SumMap, SettledQty;
  }

  lemma UpdatedStatusOk(next: Db, stale: set<Id>, i: Id, k: Id)
    requires k in next.intents && StatusOk(next, stale, k)
    requires i in next.intents ==> SettledQty(next.fills, i) <= next.intents[i].amountIn
    ensures k in UpdateStatus(next, i).intents && StatusOk(UpdateStatus(next, i), stale - {i}, k)
  {
    hide SumMap, SettledQty;
  }
}
