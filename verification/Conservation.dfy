/** Whole-run theorems about money: the ledger agrees with the balances, and per asset the balances
    add up to deposits minus withdrawals, whoever the parties of a settlement are. */
module Conservation {
  import opened Sums
  import opened Auction
  import opened Accounting
  import opened Exchange
  import opened Runs

  /** The ledger rows and the balance rows of the accounts in `S` have the same total, asset by asset. */
  ghost predicate Agrees(db: Db, S: iset<Account>) {
    forall a :: Held(db.balances, S, a) == Posted(db.ledger, S, a)
  }

  /** `S` cuts no link: it holds all the linked accounts or none of them. */
  ghost predicate Uncut(S: iset<Account>, linked: set<Account>) {
    (forall x :: x in linked ==> x in S) || (forall x :: x in linked ==> x !in S)
  }

  ghost predicate LedgerMatches(x: World) {
    PLATFORM in x.h.linked && forall S :: Uncut(S, x.h.linked) ==> Agrees(x.db, S)
  }

  /** What the calls ask of their callers: a transfer has two parties and a fee rate is not negative. */
  ghost predicate Sound(s: Step) {
    && (s.OnBalance? ==> SoundBalance(s.b))
    && (s.OnSettle? ==> SoundSettle(s.s))
  }

  ghost predicate SoundBalance(c: BalanceCall) { c.TransferCall? ==> c.from != c.to }

  ghost predicate SoundSettle(c: SettleCall) { c.EventCall? || c.SettleIntentCall? ==> c.rate >= 0.0 }

  ghost predicate AllSound(steps: seq<Step>) { forall i :: 0 <= i < |steps| ==> Sound(steps[i]) }

  // ---------------------------------------------------------------
  // Settlement totals
  // ---------------------------------------------------------------

  lemma SwapHeld(b: Balances, buyer: Account, seller: Account, assetIn: Asset, assetOut: Asset,
                 receives: int, out: int, S: iset<Account>, a: Asset)
    ensures var r := Swap(Exact, b, buyer, seller, assetIn, assetOut, receives, out);
            r.Some? ==> Held(r.value, S, a) == Held(b, S, a) + Part(S, a, seller, assetIn, receives)
                          + Part(S, a, buyer, assetOut, out) - Part(S, a, seller, assetOut, out)
  {
    var b1 := Credit(Exact, b, seller, assetIn, receives);
    var b2 := Credit(Exact, b1, buyer, assetOut, out);
    CreditHeld(b, seller, assetIn, receives, S, a);
    CreditHeld(b1, buyer, assetOut, out, S, a);
    DebitHeld(b2, seller, assetOut, out, S, a);
  }

  lemma PostSwapPosted(l: seq<Entry>, buyer: Account, seller: Account, assetIn: Asset, assetOut: Asset,
                       paid: int, receives: int, out: int, reference: Id, S: iset<Account>, a: Asset)
    ensures Posted(PostSwap(l, buyer, seller, assetIn, assetOut, paid, receives, out, reference), S, a) ==
            Posted(l, S, a) - Part(S, a, buyer, assetIn, paid) + Part(S, a, buyer, assetOut, out)
            + Part(S, a, seller, assetIn, receives) - Part(S, a, seller, assetOut, out)
  {
    var e1 := Entry(buyer, assetIn, paid, CREDIT, TRADE, reference);
    var e2 := Entry(buyer, assetOut, out, DEBIT, TRADE, reference);
    var e3 := Entry(seller, assetIn, receives, DEBIT, TRADE, reference);
    var e4 := Entry(seller, assetOut, out, CREDIT, TRADE, reference);
    PostPosted(l, e1, S, a);
    PostPosted(Post(l, e1), e2, S, a);
    PostPosted(Post(Post(l, e1), e2), e3, S, a);
    PostPosted(Post(Post(Post(l, e1), e2), e3), e4, S, a);
  }

  function Positive(x: int): nat { if x > 0 then x else 0 }

  lemma FeeHeld(b: Balances, acct: Account, asset: Asset, fee: int, S: iset<Account>, a: Asset)
    ensures Held(CreditFee(Exact, b, acct, asset, fee), S, a) == Held(b, S, a) + Part(S, a, acct, asset, Positive(fee))
  {
    CreditHeld(b, acct, asset, fee, S, a);
  }

  lemma FeePosted(l: seq<Entry>, asset: Asset, fee: int, reference: Id, S: iset<Account>, a: Asset)
    ensures Posted(PostFee(l, asset, fee, reference), S, a) == Posted(l, S, a) + Part(S, a, PLATFORM, asset, Positive(fee))
  {
    PostPosted(l, Entry(PLATFORM, asset, fee, DEBIT, FEE, reference), S, a);
  }

  lemma FeesPosted(l: seq<Entry>, asset: Asset, platformFee: int, solverFee: int, reference: Id, S: iset<Account>, a: Asset)
    ensures Posted(PostFees(l, asset, platformFee, solverFee, reference), S, a) == Posted(l, S, a)
              + Part(S, a, PLATFORM, asset, Positive(platformFee)) + Part(S, a, PLATFORM, asset, Positive(solverFee))
  {
    FeePosted(l, asset, platformFee, reference, S, a);
    FeePosted(PostFee(l, asset, platformFee, reference), asset, solverFee, reference, S, a);
  }

  lemma PayOutHeld(b: Balances, buyer: Account, seller: Account, solver: Account, assetIn: Asset, assetOut: Asset,
                   receives: int, out: int, platformFee: int, solverFee: int, S: iset<Account>, a: Asset)
    ensures var r := PayOut(Exact, b, buyer, seller, solver, assetIn, assetOut, receives, out, platformFee, solverFee);
            r.Some? ==> (
              Held(r.value, S, a) == Held(b, S, a)
              + Part(S, a, seller, assetIn, receives) + Part(S, a, buyer, assetOut, out) - Part(S, a, seller, assetOut, out)
              + Part(S, a, PLATFORM, assetIn, Positive(platformFee)) + Part(S, a, solver, assetIn, Positive(solverFee)))
  {
    var r := Swap(Exact, b, buyer, seller, assetIn, assetOut, receives, out);
    SwapHeld(b, buyer, seller, assetIn, assetOut, receives, out, S, a);
    if r.Some? {
      FeeHeld(r.value, PLATFORM, assetIn, platformFee, S, a);
      FeeHeld(CreditFee(Exact, r.value, PLATFORM, assetIn, platformFee), solver, assetIn, solverFee, S, a);
    }
  }

  /** Total effect of a committed fill on the balances of `S`. */
  lemma ChargeAndPayHeld(b: Balances, buyer: Account, seller: Account, solver: Account, assetIn: Asset, assetOut: Asset,
                         paid: int, out: int, fee: int, solverFee: int, S: iset<Account>, a: Asset)
    ensures var r := ChargeAndPay(Exact, b, buyer, seller, solver, assetIn, assetOut, paid, out, fee, solverFee);
            r.Some? ==> (
              Held(r.value, S, a) == Held(b, S, a)
              - Part(S, a, buyer, assetIn, paid) + Part(S, a, buyer, assetOut, out)
              + Part(S, a, seller, assetIn, paid - fee) - Part(S, a, seller, assetOut, out)
              + Part(S, a, PLATFORM, assetIn, Positive(fee - solverFee)) + Part(S, a, solver, assetIn, Positive(solverFee)))
  {
    var r := UnlockAndDebit(Exact, b, buyer, assetIn, paid);
    if r.Some? {
      ShiftHeld(b, buyer, assetIn, 0, -paid, S, a);
      PayOutHeld(r.value, buyer, seller, solver, assetIn, assetOut, paid - fee, out, fee - solverFee, solverFee, S, a);
    }
  }

  lemma FillHeld(db: Db, f: Id, buyer: Account, seller: Account, assetIn: Asset, assetOut: Asset, rate: real,
                 S: iset<Account>, a: Asset)
    requires f in db.fills
    ensures var r := FillBalances(Exact, db, f, buyer, seller, assetIn, assetOut, rate);
            var fill := db.fills[f];
            var fee := TotalFee(fill.filledQty, rate);
            r.Some? ==> (
              Held(r.value, S, a) == Held(db.balances, S, a)
              - Part(S, a, buyer, assetIn, fill.filledQty) + Part(S, a, buyer, assetOut, fill.qty)
              + Part(S, a, seller, assetIn, fill.filledQty - fee) - Part(S, a, seller, assetOut, fill.qty)
              + Part(S, a, PLATFORM, assetIn, Positive(fee - SolverFee(fee)))
              + Part(S, a, SolverAccount(db, fill.solver), assetIn, Positive(SolverFee(fee))))
  {
    var fill := db.fills[f];
    var fee := TotalFee(fill.filledQty, rate);
    ChargeAndPayHeld(db.balances, buyer, seller, SolverAccount(db, fill.solver), assetIn, assetOut,
                     fill.filledQty, fill.qty, fee, SolverFee(fee), S, a);
  }

  /** Total effect of its ledger rows: the solver fee appears under the platform. */
  lemma FillPosted(db: Db, f: Id, buyer: Account, seller: Account, assetIn: Asset, assetOut: Asset, rate: real,
                   S: iset<Account>, a: Asset)
    requires f in db.fills
    ensures var fill := db.fills[f];
            var fee := TotalFee(fill.filledQty, rate);
            Posted(FillLedger(db, f, buyer, seller, assetIn, assetOut, rate), S, a) == Posted(db.ledger, S, a)
              - Part(S, a, buyer, assetIn, fill.filledQty) + Part(S, a, buyer, assetOut, fill.qty)
              + Part(S, a, seller, assetIn, fill.filledQty - fee) - Part(S, a, seller, assetOut, fill.qty)
              + Part(S, a, PLATFORM, assetIn, Positive(fee - SolverFee(fee)))
              + Part(S, a, PLATFORM, assetIn, Positive(SolverFee(fee)))
  {
    var fill := db.fills[f];
    var fee := TotalFee(fill.filledQty, rate);
    var l := PostSwap(db.ledger, buyer, seller, assetIn, assetOut, fill.filledQty, fill.filledQty - fee, fill.qty, f);
    PostSwapPosted(db.ledger, buyer, seller, assetIn, assetOut, fill.filledQty, fill.filledQty - fee, fill.qty, f, S, a);
    FeesPosted(l, assetIn, fee - SolverFee(fee), SolverFee(fee), f, S, a);
  }

  lemma TradeHeld(b: Balances, t: Trade, S: iset<Account>, a: Asset)
    ensures var r := TradeBalances(Exact, b, t);
            var receives := t.amountIn - t.platformFee - t.solverFee;
            r.Some? ==> (
              Held(r.value, S, a) == Held(b, S, a)
              - Part(S, a, t.buyer, t.assetIn, t.amountIn) + Part(S, a, t.buyer, t.assetOut, t.amountOut)
              + Part(S, a, t.seller, t.assetIn, receives) - Part(S, a, t.seller, t.assetOut, t.amountOut)
              + Part(S, a, PLATFORM, t.assetIn, t.platformFee) + Part(S, a, t.solver, t.assetIn, t.solverFee))
  {
    var receives := t.amountIn - t.platformFee - t.solverFee;
    DebitHeld(b, t.buyer, t.assetIn, t.amountIn, S, a);
    var r0 := Debit(Exact, b, t.buyer, t.assetIn, t.amountIn);
    if r0.Some? {
      SwapHeld(r0.value, t.buyer, t.seller, t.assetIn, t.assetOut, receives, t.amountOut, S, a);
      var r1 := Swap(Exact, r0.value, t.buyer, t.seller, t.assetIn, t.assetOut, receives, t.amountOut);
      if r1.Some? {
        CreditHeld(r1.value, PLATFORM, t.assetIn, t.platformFee, S, a);
        CreditHeld(Credit(Exact, r1.value, PLATFORM, t.assetIn, t.platformFee), t.solver, t.assetIn, t.solverFee, S, a);
      }
    }
  }

  lemma TradePosted(l: seq<Entry>, id: Id, t: Trade, S: iset<Account>, a: Asset)
    ensures var receives := t.amountIn - t.platformFee - t.solverFee;
            Posted(TradeLedger(l, id, t), S, a) == Posted(l, S, a)
              - Part(S, a, t.buyer, t.assetIn, t.amountIn) + Part(S, a, t.buyer, t.assetOut, t.amountOut)
              + Part(S, a, t.seller, t.assetIn, receives) - Part(S, a, t.seller, t.assetOut, t.amountOut)
              + Part(S, a, PLATFORM, t.assetIn, t.platformFee) + Part(S, a, t.solver, t.assetIn, t.solverFee)
  {
    var receives := t.amountIn - t.platformFee - t.solverFee;
    var l1 := PostSwap(l, t.buyer, t.seller, t.assetIn, t.assetOut, t.amountIn, receives, t.amountOut, id);
    var e1 := Entry(PLATFORM, t.assetIn, t.platformFee, DEBIT, FEE, id);
    PostSwapPosted(l, t.buyer, t.seller, t.assetIn, t.assetOut, t.amountIn, receives, t.amountOut, id, S, a);
    PostPosted(l1, e1, S, a);
    PostPosted(Post(l1, e1), Entry(t.solver, t.assetIn, t.solverFee, DEBIT, FEE, id), S, a);
  }

  // ---------------------------------------------------------------
  // How far balances and ledger are apart, call by call
  // ---------------------------------------------------------------

  /** What the accounts of `S` own of an asset beyond what their ledger rows say. */
  ghost function Gap(db: Db, S: iset<Account>, a: Asset): int { Held(db.balances, S, a) - Posted(db.ledger, S, a) }

  /** A transfer posts its two rows with the signs of the opposite movement, and moves nothing out when it goes to
      its own source. */
  ghost function TransferGap(db: Db, from: Account, to: Account, asset: Asset, amount: int, S: iset<Account>, a: Asset): int {
    if !Transfer(Exact, db, from, to, asset, amount).outcome.Done? then 0
    else if from == to then Part(S, a, from, asset, amount)
    else 2 * (Part(S, a, to, asset, amount) - Part(S, a, from, asset, amount))
  }

  /** The solver fee is credited to the solver but posted to the platform. */
  ghost function FillGap(db: Db, f: Id, buyer: Account, seller: Account, assetIn: Asset, assetOut: Asset, rate: real,
                         S: iset<Account>, a: Asset): int {
    if !SettleFill(Exact, db, f, buyer, seller, assetIn, assetOut, rate).outcome.Done? then 0
    else
      var solverFee := Positive(SolverFee(TotalFee(db.fills[f].filledQty, rate)));
      Part(S, a, SolverAccount(db, db.fills[f].solver), assetIn, solverFee) - Part(S, a, PLATFORM, assetIn, solverFee)
  }

  ghost function FillsGap(db: Db, rows: seq<Id>, buyer: Account, seller: Account, assetIn: Asset, assetOut: Asset, rate: real,
                          S: iset<Account>, a: Asset): int
    decreases |rows|
  {
    if rows == [] then 0
    else FillGap(db, rows[0], buyer, seller, assetIn, assetOut, rate, S, a)
         + FillsGap(SettleFill(Exact, db, rows[0], buyer, seller, assetIn, assetOut, rate).db, rows[1..],
                    buyer, seller, assetIn, assetOut, rate, S, a)
  }

  ghost function SettleGap(db: Db, c: SettleCall, S: iset<Account>, a: Asset): int {
    match c
    case EventCall(f, _, buyer, seller, tokenIn, tokenOut, rate) =>
      if tokenIn.Known? && tokenOut.Known? then FillGap(db, f, buyer, seller, tokenIn.asset, tokenOut.asset, rate, S, a) else 0
    case SettleIntentCall(_, rows, buyer, seller, assetIn, assetOut, rate) =>
      FillsGap(db, rows, buyer, seller, assetIn, assetOut, rate, S, a)
    case NewTradeCall(_) => 0
    case SettleTradeCall(_) => 0
  }

  /** What one call adds to the gap: only transfers and solver fees count. */
  ghost function StepGap(db: Db, s: Step, S: iset<Account>, a: Asset): int {
    match s
    case OnBalance(c) => if c.TransferCall? then TransferGap(db, c.from, c.to, c.asset, c.amount, S, a) else 0
    case OnIntent(_) => 0
    case OnAuction(_) => 0
    case OnSettle(c) => SettleGap(db, c, S, a)
  }

  ghost function RunGap(x: World, steps: seq<Step>, S: iset<Account>, a: Asset): int {
    if steps == [] then 0
    else RunGap(x, steps[..|steps| - 1], S, a) + StepGap(Run(Exact, x, steps[..|steps| - 1]).db, steps[|steps| - 1], S, a)
  }

  lemma TouchHeld(b: Balances, acct: Account, asset: Asset, S: iset<Account>, a: Asset)
    ensures Held(Touch(b, acct, asset), S, a) == Held(b, S, a)
  {
    PutHeld(b, acct, asset, Row(b, acct, asset), S, a);
  }

  lemma RelockHeld(b: Balances, acct: Account, asset: Asset, amount: int, S: iset<Account>, a: Asset)
    ensures var row := Row(b, acct, asset);
            Held(b[(acct, asset) := Balance(row.available - amount, row.locked + amount)], S, a) == Held(b, S, a)
  {
    PutHeld(b, acct, asset, Balance(Row(b, acct, asset).available - amount, Row(b, acct, asset).locked + amount), S, a);
  }

  lemma MoveHeld(b: Balances, from: Account, to: Account, asset: Asset, amount: int, S: iset<Account>, a: Asset)
    ensures Held(MoveRows(Exact, b, from, to, asset, amount), S, a) == Held(b, S, a) + Part(S, a, to, asset, amount)
              - if from == to then 0 else Part(S, a, from, asset, amount)
  {
    var source, target := Row(b, from, asset), Row(b, to, asset);
    var left, right := source.(available := source.available - amount), target.(available := target.available + amount);
    if from == to {
      assert MoveRows(Exact, b, from, to, asset, amount) == b[(to, asset) := right];
      PutHeld(b, to, asset, right, S, a);
    } else {
      var b1 := b[(from, asset) := left];
      PutHeld(b, from, asset, left, S, a);
      assert Row(b1, to, asset) == target;
      PutHeld(b1, to, asset, right, S, a);
    }
  }

  /** The two ledger rows of a transfer have the signs the other way round. */
  lemma DoublePosted(l: seq<Entry>, first: Account, second: Account, asset: Asset, amount: int, reference: Id,
                     S: iset<Account>, a: Asset)
    ensures Posted(DoubleEntry(l, first, second, asset, amount, reference), S, a)
            == Posted(l, S, a) + Part(S, a, first, asset, amount) - Part(S, a, second, asset, amount)
  {
    var e := Entry(first, asset, amount, DEBIT, TRADE, reference);
    PostPosted(l, e, S, a);
    PostPosted(Post(l, e), Entry(second, asset, amount, CREDIT, TRADE, reference), S, a);
  }

  lemma TransferHeld(db: Db, from: Account, to: Account, asset: Asset, amount: int, S: iset<Account>, a: Asset)
    ensures var r := Transfer(Exact, db, from, to, asset, amount);
            Held(r.db.balances, S, a) == Held(db.balances, S, a)
              + if !r.outcome.Done? then 0
                else Part(S, a, to, asset, amount) - (if from == to then 0 else Part(S, a, from, asset, amount))
  {
    hide Held, MoveRows, Row;
    TouchHeld(db.balances, from, asset, S, a);
    MoveHeld(Touch(db.balances, from, asset), from, to, asset, amount, S, a);
  }

  lemma DepositGap(db: Db, acct: Account, asset: Asset, amount: int, S: iset<Account>, a: Asset)
    ensures Gap(Deposit(Exact, db, acct, asset, amount).db, S, a) == Gap(db, S, a)
  {
    hide Held, Posted, Credit;
    CreditHeld(db.balances, acct, asset, amount, S, a);
    PostPosted(db.ledger, Entry(acct, asset, amount, DEBIT, DEPOSIT, db.nextId), S, a);
  }

  lemma WithdrawGap(db: Db, acct: Account, asset: Asset, amount: int, S: iset<Account>, a: Asset)
    ensures Gap(Withdraw(Exact, db, acct, asset, amount).db, S, a) == Gap(db, S, a)
  {
    hide Held, Posted, Row;
    DebitHeld(db.balances, acct, asset, amount, S, a);
    TouchHeld(db.balances, acct, asset, S, a);
    PostPosted(db.ledger, Entry(acct, asset, amount, CREDIT, WITHDRAWAL, db.nextId), S, a);
  }

  lemma RelockGap(db: Db, acct: Account, asset: Asset, amount: int, S: iset<Account>, a: Asset)
    ensures Gap(LockBalance(Exact, db, acct, asset, amount).db, S, a) == Gap(db, S, a)
    ensures Gap(UnlockBalance(Exact, db, acct, asset, amount).db, S, a) == Gap(db, S, a)
  {
    hide Held, Posted, Row;
    TouchHeld(db.balances, acct, asset, S, a);
    RelockHeld(db.balances, acct, asset, amount, S, a);
    RelockHeld(db.balances, acct, asset, -amount, S, a);
  }

  lemma TransferMovesGap(db: Db, from: Account, to: Account, asset: Asset, amount: int, S: iset<Account>, a: Asset)
    ensures Gap(Transfer(Exact, db, from, to, asset, amount).db, S, a)
            == Gap(db, S, a) + TransferGap(db, from, to, asset, amount, S, a)
  {
    hide Held, Posted, MoveRows, Row, Part, DoubleEntry;
    TransferHeld(db, from, to, asset, amount, S, a);
    DoublePosted(db.ledger, from, to, asset, amount, db.nextId, S, a);
  }

  lemma BalanceCallGap(db: Db, c: BalanceCall, S: iset<Account>, a: Asset)
    ensures Gap(ApplyBalance(Exact, db, c).db, S, a) == Gap(db, S, a) + StepGap(db, OnBalance(c), S, a)
  {
    hide Gap, TransferGap, Deposit, Withdraw, LockBalance, UnlockBalance, Transfer;
    match c {
      case DepositCall(acct, asset, amount) => DepositGap(db, acct, asset, amount, S, a);
      case WithdrawCall(acct, asset, amount) => WithdrawGap(db, acct, asset, amount, S, a);
      case LockCall(acct, asset, amount) => RelockGap(db, acct, asset, amount, S, a);
      case UnlockCall(acct, asset, amount) => RelockGap(db, acct, asset, amount, S, a);
      case TransferCall(from, to, asset, amount) => TransferMovesGap(db, from, to, asset, amount, S, a);
    }
  }

  /** Moving funds between the two columns of one row changes no total. */
  lemma ColumnsHeld(b: Balances, acct: Account, asset: Asset, amount: int, S: iset<Account>, a: Asset)
    ensures var r := Shift(Exact, b, acct, asset, -amount, amount);
            r.Some? && Held(r.value, S, a) == Held(b, S, a)
  {
    ShiftHeld(b, acct, asset, -amount, amount, S, a);
  }

  /** Intent calls move funds between columns only. */
  lemma IntentCallHeld(db: Db, c: IntentCall, S: iset<Account>, a: Asset)
    ensures Held(ApplyIntent(Exact, db, c).db.balances, S, a) == Held(db.balances, S, a)
    ensures ApplyIntent(Exact, db, c).db.ledger == db.ledger
  {
    hide Held, Shift, Row;
    match c {
      case CreateCall(acct, tokenIn, _, amountIn, _, _, _) =>
        if tokenIn.Known? { ColumnsHeld(db.balances, acct, tokenIn.asset, AsI64(amountIn), S, a); }
      case AmendCall(i, acct, newAmountIn, newMinAmountOut, newLimitPrice) =>
        if i in db.intents && db.intents[i].tokenIn.Known? {
          ColumnsHeld(db.balances, acct, db.intents[i].tokenIn.asset, AmendDiff(Exact, db.intents[i], newAmountIn), S, a);
        }
      case ReleaseCall(i, acct, _) =>
        if i in db.intents && db.intents[i].tokenIn.Known? {
          ColumnsHeld(db.balances, acct, db.intents[i].tokenIn.asset, -db.intents[i].amountIn, S, a);
        }
      case ExpireCall(i, found) =>
        if i in db.intents && db.intents[i].tokenIn.Known? && found.Some? {
          ColumnsHeld(db.balances, found.value, db.intents[i].tokenIn.asset, -db.intents[i].amountIn, S, a);
        }
    }
  }

  lemma SettleFillGap(db: Db, f: Id, buyer: Account, seller: Account, assetIn: Asset, assetOut: Asset, rate: real,
                      S: iset<Account>, a: Asset)
    ensures Gap(SettleFill(Exact, db, f, buyer, seller, assetIn, assetOut, rate).db, S, a)
            == Gap(db, S, a) + FillGap(db, f, buyer, seller, assetIn, assetOut, rate, S, a)
  {
    hide Held, Posted, FillBalances, FillLedger, TotalFee, SolverFee, Part;
    if SettleFill(Exact, db, f, buyer, seller, assetIn, assetOut, rate).outcome.Done? {
      FillHeld(db, f, buyer, seller, assetIn, assetOut, rate, S, a);
      FillPosted(db, f, buyer, seller, assetIn, assetOut, rate, S, a);
    }
  }

  lemma {:induction false} SettleEachGap(db: Db, rows: seq<Id>, buyer: Account, seller: Account,
                                         assetIn: Asset, assetOut: Asset, rate: real, S: iset<Account>, a: Asset)
    ensures Gap(SettleEach(Exact, db, rows, buyer, seller, assetIn, assetOut, rate), S, a)
            == Gap(db, S, a) + FillsGap(db, rows, buyer, seller, assetIn, assetOut, rate, S, a)
    decreases |rows|
  {
    hide Gap, FillGap, SettleFill;
    if rows != [] {
      SettleFillGap(db, rows[0], buyer, seller, assetIn, assetOut, rate, S, a);
      SettleEachGap(SettleFill(Exact, db, rows[0], buyer, seller, assetIn, assetOut, rate).db, rows[1..],
                    buyer, seller, assetIn, assetOut, rate, S, a);
    }
  }

  lemma SettleTradeGap(db: Db, id: Id, S: iset<Account>, a: Asset)
    ensures Gap(SettleTrade(Exact, db, id).db, S, a) == Gap(db, S, a)
  {
    hide Held, Posted, TradeBalances, TradeLedger, Part;
    if SettleTrade(Exact, db, id).outcome.Done? {
      TradeHeld(db.balances, db.trades[id], S, a);
      TradePosted(db.ledger, id, db.trades[id], S, a);
    }
  }

  lemma StatusGap(db: Db, i: Id, S: iset<Account>, a: Asset)
    ensures Gap(UpdateStatus(db, i), S, a) == Gap(db, S, a)
    ensures i in db.intents ==> forall status :: Gap(SetStatus(db, i, status), S, a) == Gap(db, S, a)
  {
    hide Held, Posted, SettledQty;
  }

  lemma SettleCallGap(db: Db, c: SettleCall, S: iset<Account>, a: Asset)
    ensures Gap(ApplySettle(Exact, db, c).db, S, a) == Gap(db, S, a) + SettleGap(db, c, S, a)
  {
    hide Gap, FillGap, FillsGap, SettleFill, SettleEach, SettleTrade, UpdateStatus, ComputeStatus, SetStatus;
    match c {
      case EventCall(f, i, buyer, seller, tokenIn, tokenOut, rate) =>
        if tokenIn.Known? && tokenOut.Known? {
          SettleFillGap(db, f, buyer, seller, tokenIn.asset, tokenOut.asset, rate, S, a);
          StatusGap(SettleFill(Exact, db, f, buyer, seller, tokenIn.asset, tokenOut.asset, rate).db, i, S, a);
        }
      case SettleIntentCall(i, rows, buyer, seller, assetIn, assetOut, rate) =>
        SettleEachGap(db, rows, buyer, seller, assetIn, assetOut, rate, S, a);
        StatusGap(SettleEach(Exact, db, rows, buyer, seller, assetIn, assetOut, rate), i, S, a);
      case NewTradeCall(t) => NewTradeGap(db, t, S, a);
      case SettleTradeCall(id) => SettleTradeGap(db, id, S, a);
    }
  }

  lemma NewTradeGap(db: Db, t: Trade, S: iset<Account>, a: Asset)
    ensures Gap(CreateTrade(db, t).db, S, a) == Gap(db, S, a)
  {
  }

  /** Auctions and executions move no money. */
  lemma AuctionCallTables(db: Db, c: AuctionCall)
    ensures ApplyAuction(db, c).db.balances == db.balances && ApplyAuction(db, c).db.ledger == db.ledger
  {
    match c {
      case BidCall(_, _, _) =>
      case BeginCall(_) =>
      case CloseCall(i) => CloseTables(db, i);
      case ExecuteCall(_) =>
    }
  }

  lemma CloseTables(db: Db, i: Id)
    ensures CloseAuction(db, i).db.balances == db.balances && CloseAuction(db, i).db.ledger == db.ledger
  {
  }

  lemma StepMovesGap(db: Db, s: Step, S: iset<Account>, a: Asset)
    ensures Gap(Apply(Exact, db, s).db, S, a) == Gap(db, S, a) + StepGap(db, s, S, a)
  {
    hide ApplyBalance, ApplyIntent, ApplyAuction, ApplySettle, SettleGap, TransferGap, Held, Posted;
    match s {
      case OnBalance(c) => BalanceCallGap(db, c, S, a);
      case OnIntent(c) => IntentCallHeld(db, c, S, a);
      case OnAuction(c) => AuctionCallTables(db, c);
      case OnSettle(c) => SettleCallGap(db, c, S, a);
    }
  }

  /** The exact law of the ledger, for every run of any calls, every set of accounts and every asset: balances and
      ledger differ by twice what transfers carried across the boundary of the set, by what self-transfers made, and
      by the solver fees whose solver and platform lie on different sides of it. */
  lemma {:induction false} LedgerLaw(solverAccounts: map<string, Account>, steps: seq<Step>, S: iset<Account>, a: Asset)
    ensures var db := Run(Exact, Start(solverAccounts), steps).db;
            Held(db.balances, S, a) - Posted(db.ledger, S, a) == RunGap(Start(solverAccounts), steps, S, a)
  {
    if steps != [] {
      LedgerLaw(solverAccounts, steps[..|steps| - 1], S, a);
      StepMovesGap(Run(Exact, Start(solverAccounts), steps[..|steps| - 1]).db, steps[|steps| - 1], S, a);
    }
  }

  lemma {:induction false} UncutFills(db: Db, rows: seq<Id>, buyer: Account, seller: Account,
                                      assetIn: Asset, assetOut: Asset, rate: real, S: iset<Account>, a: Asset)
    requires forall x :: x in PaidSolvers(Exact, db, rows, buyer, seller, assetIn, assetOut, rate) ==>
               (x in S <==> PLATFORM in S)
    ensures FillsGap(db, rows, buyer, seller, assetIn, assetOut, rate, S, a) == 0
    decreases |rows|
  {
    hide SettleFill, TotalFee, SolverFee;
    if rows != [] {
      UncutFill(db, rows[0], buyer, seller, assetIn, assetOut, rate, S, a);
      UncutFills(SettleFill(Exact, db, rows[0], buyer, seller, assetIn, assetOut, rate).db, rows[1..],
                 buyer, seller, assetIn, assetOut, rate, S, a);
    }
  }

  lemma UncutFill(db: Db, f: Id, buyer: Account, seller: Account, assetIn: Asset, assetOut: Asset, rate: real,
                  S: iset<Account>, a: Asset)
    requires forall x :: x in PaidSolver(Exact, db, f, buyer, seller, assetIn, assetOut, rate) ==>
               (x in S <==> PLATFORM in S)
    ensures FillGap(db, f, buyer, seller, assetIn, assetOut, rate, S, a) == 0
  {
    hide FillBalances, FillLedger, TotalFee, SolverFee;
    if SettleFill(Exact, db, f, buyer, seller, assetIn, assetOut, rate).outcome.Done?
       && SolverFee(TotalFee(db.fills[f].filledQty, rate)) > 0 {
      assert SolverAccount(db, db.fills[f].solver) in PaidSolver(Exact, db, f, buyer, seller, assetIn, assetOut, rate);
    }
  }

  /** A call adds nothing to the gap of a set that cuts no link. */
  lemma UncutStep(db: Db, h: History, s: Step, S: iset<Account>, a: Asset)
    requires Sound(s) && PLATFORM in h.linked && Uncut(S, Observe(Exact, h, db, s).linked)
    ensures StepGap(db, s, S, a) == 0
  {
    match s {
      case OnBalance(c) =>
        assert c.TransferCall? ==> {c.from, c.to} <= ObserveBalance(Exact, h, db, c).linked;
      case OnIntent(_) =>
      case OnAuction(_) =>
      case OnSettle(c) =>
        assert PLATFORM in ObserveSettle(Exact, h, db, c).linked;
        match c {
          case EventCall(f, _, buyer, seller, tokenIn, tokenOut, rate) =>
            if tokenIn.Known? && tokenOut.Known? {
              UncutFill(db, f, buyer, seller, tokenIn.asset, tokenOut.asset, rate, S, a);
            }
          case SettleIntentCall(_, rows, buyer, seller, assetIn, assetOut, rate) =>
            UncutFills(db, rows, buyer, seller, assetIn, assetOut, rate, S, a);
          case NewTradeCall(_) =>
          case SettleTradeCall(_) =>
        }
    }
  }

  lemma LinkedGrows(w: Width, h: History, db: Db, s: Step)
    ensures h.linked <= Observe(w, h, db, s).linked
  {
    hide SettleFill, ApplyBalance, ApplyIntent, PaidSolver, PaidSolvers;
  }

  lemma {:induction false} UncutRun(solverAccounts: map<string, Account>, steps: seq<Step>, S: iset<Account>, a: Asset)
    requires AllSound(steps)
    ensures PLATFORM in Run(Exact, Start(solverAccounts), steps).h.linked
    ensures Uncut(S, Run(Exact, Start(solverAccounts), steps).h.linked) ==> RunGap(Start(solverAccounts), steps, S, a) == 0
  {
    if steps != [] {
      var init, last := steps[..|steps| - 1], steps[|steps| - 1];
      var y := Run(Exact, Start(solverAccounts), init);
      UncutRun(solverAccounts, init, S, a);
      LinkedGrows(Exact, y.h, y.db, last);
      hide Apply, Observe, StepGap;
      if Uncut(S, Run(Exact, Start(solverAccounts), steps).h.linked) {
        assert Uncut(S, y.h.linked);
        UncutStep(y.db, y.h, last, S, a);
      }
    }
  }

  /** Ledger agreement: after every run of sound calls, any set of accounts that cuts no link owns exactly
      what its ledger rows say, asset by asset. In particular this holds of all accounts together, of each
      single account that took part in no transfer, is not the platform and was paid no solver fee, and of
      the linked accounts summed together. */
  lemma LedgerAgreement(solverAccounts: map<string, Account>, steps: seq<Step>)
    requires AllSound(steps)
    ensures LedgerMatches(Run(Exact, Start(solverAccounts), steps))
  {
    var x := Run(Exact, Start(solverAccounts), steps);
    UncutRun(solverAccounts, steps, EVERYONE, USDC);
    forall S | Uncut(S, x.h.linked) ensures Agrees(x.db, S) {
      forall a ensures Held(x.db.balances, S, a) == Posted(x.db.ledger, S, a) {
        LedgerLaw(solverAccounts, steps, S, a);
        UncutRun(solverAccounts, steps, S, a);
      }
    }
  }

  /** What one account holds is its row. */
  lemma HeldSingle(b: Balances, acct: Account, a: Asset)
    ensures Held(b, iset{acct}, a) == Row(b, acct, a).available + Row(b, acct, a).locked
  {
    var k, weight := (acct, a), Holding(iset{acct}, a);
    assert forall x: Key :: x != k ==> !(x.0 in iset{acct} && x.1 == a);
    if k in b {
      SumRemove(b, weight, k);
      SumZero(b - {k}, weight);
    } else {
      SumZero(b, weight);
    }
  }

  /** `compute_balance` reproduces the balance row of every account outside the linked ones. */
  lemma LedgerOfOneAccount(solverAccounts: map<string, Account>, steps: seq<Step>, acct: Account, a: Asset)
    requires AllSound(steps)
    requires acct !in Run(Exact, Start(solverAccounts), steps).h.linked
    ensures var db := Run(Exact, Start(solverAccounts), steps).db;
            Posted(db.ledger, iset{acct}, a) == Row(db.balances, acct, a).available + Row(db.balances, acct, a).locked
  {
    var x := Run(Exact, Start(solverAccounts), steps);
    LedgerAgreement(solverAccounts, steps);
    assert Uncut(iset{acct}, x.h.linked);
    HeldSingle(x.db.balances, acct, a);
  }

  // ---------------------------------------------------------------
  // Conservation
  // ---------------------------------------------------------------

  /** With an amount and a rate that are not negative the fee splits without loss. */
  lemma FeeSplit(amount: int, rate: real)
    ensures amount >= 0 && rate >= 0.0 ==> TotalFee(amount, rate) >= 0
    ensures amount >= 0 && 0.0 <= rate <= 1.0 ==> TotalFee(amount, rate) <= amount
  {
    if amount >= 0 && rate >= 0.0 {
      var x := amount as real * rate;
      assert x >= 0.0;
      if rate <= 1.0 {
        assert x.Floor as real <= x <= amount as real;
      }
    }
  }

  lemma SolverShare(total: int)
    ensures total >= 0 ==> 0 <= SolverFee(total) <= total
    ensures I64_MIN <= total < 0 ==> total <= SolverFee(total) <= 0
  {
    var share := total as real * 0.3;
    if total >= 0 {
      assert 0.0 <= share <= total as real;
    } else {
      assert 0.0 <= -share <= -total as real;
    }
  }

  ghost predicate FillsPositive(db: Db) { forall f :: f in db.fills ==> db.fills[f].filledQty > 0 && db.fills[f].qty > 0 }

  /** How much of an asset a fill creates: none, unless its fee is negative, which raises what the seller gets
      while the two fee credits that would offset it are skipped. */
  function Created(fee: int): nat { if fee >= 0 then 0 else -fee }

  lemma FillTotal(db: Db, f: Id, buyer: Account, seller: Account, assetIn: Asset, assetOut: Asset, rate: real, a: Asset)
    requires SettleFill(Exact, db, f, buyer, seller, assetIn, assetOut, rate).outcome.Done?
    ensures var db' := SettleFill(Exact, db, f, buyer, seller, assetIn, assetOut, rate).db;
            var created := if a == assetIn then Created(TotalFee(db.fills[f].filledQty, rate)) else 0;
            && Held(db'.balances, EVERYONE, a) == Held(db.balances, EVERYONE, a) + created
            && Posted(db'.ledger, EVERYONE, a) == Posted(db.ledger, EVERYONE, a) + created
  {
    SolverShare(TotalFee(db.fills[f].filledQty, rate));
    FillHeld(db, f, buyer, seller, assetIn, assetOut, rate, EVERYONE, a);
    FillPosted(db, f, buyer, seller, assetIn, assetOut, rate, EVERYONE, a);
  }

  /** The fee is negative exactly when the product is at most minus one: a smaller loss truncates to nothing. */
  lemma FeeSign(amount: int, rate: real)
    ensures TotalFee(amount, rate) >= 0 <==> amount as real * rate > -1.0
  {
    var x := amount as real * rate;
    if x < 0.0 {
      var loss := (-x).Floor;
      assert loss as real <= -x < loss as real + 1.0;
    }
  }

  /** A committed fill leaves the total of every asset alone exactly when its quantity times the rate is above minus one. */
  lemma FillConservesIff(db: Db, f: Id, buyer: Account, seller: Account, assetIn: Asset, assetOut: Asset, rate: real)
    requires SettleFill(Exact, db, f, buyer, seller, assetIn, assetOut, rate).outcome.Done?
    ensures var db' := SettleFill(Exact, db, f, buyer, seller, assetIn, assetOut, rate).db;
            (forall a :: Held(db'.balances, EVERYONE, a) == Held(db.balances, EVERYONE, a))
            <==> db.fills[f].filledQty as real * rate > -1.0
  {
    var db' := SettleFill(Exact, db, f, buyer, seller, assetIn, assetOut, rate).db;
    var qty := db.fills[f].filledQty;
    FeeSign(qty, rate);
    forall a ensures Held(db'.balances, EVERYONE, a)
                     == Held(db.balances, EVERYONE, a) + if a == assetIn then Created(TotalFee(qty, rate)) else 0 {
      FillTotal(db, f, buyer, seller, assetIn, assetOut, rate, a);
    }
    hide SettleFill, Held, TotalFee;
    assert Held(db'.balances, EVERYONE, assetIn) == Held(db.balances, EVERYONE, assetIn) + Created(TotalFee(qty, rate));
  }

  /** A committed transfer keeps the total of every asset exactly when it has two parties; a transfer to oneself makes
      the amount it moves. */
  lemma TransferConservesIff(db: Db, from: Account, to: Account, asset: Asset, amount: int)
    requires Transfer(Exact, db, from, to, asset, amount).outcome.Done?
    ensures var db' := Transfer(Exact, db, from, to, asset, amount).db;
            && ((forall a :: Held(db'.balances, EVERYONE, a) == Held(db.balances, EVERYONE, a)) <==> from != to)
            && (from == to ==> Held(db'.balances, EVERYONE, asset) == Held(db.balances, EVERYONE, asset) + amount)
  {
    var db' := Transfer(Exact, db, from, to, asset, amount).db;
    forall a ensures Held(db'.balances, EVERYONE, a)
                     == Held(db.balances, EVERYONE, a) + if from == to && a == asset then amount else 0 {
      TransferHeld(db, from, to, asset, amount, EVERYONE, a);
    }
    assert amount > 0;
    hide Transfer, Held;
    assert Held(db'.balances, EVERYONE, asset) == Held(db.balances, EVERYONE, asset) + if from == to then amount else 0;
  }

  lemma {:induction false} InsertPositive(fills: map<Id, Fill>, i: Id, drafts: seq<Draft>, firstId: Id)
    requires forall f :: f in fills ==> fills[f].filledQty > 0 && fills[f].qty > 0
    requires WholeButLast(drafts)
    ensures forall f :: f in InsertFills(fills, i, drafts, firstId) ==>
              InsertFills(fills, i, drafts, firstId)[f].filledQty > 0 && InsertFills(fills, i, drafts, firstId)[f].qty > 0
    decreases |drafts|
  {
    if drafts != [] {
      var d := drafts[0];
      InsertPositive(fills[firstId := Fill(i, d.solver, d.price, d.qty, d.filledQty, false)], i, drafts[1..], firstId + 1);
    }
  }

  /** What the negative fees of a call create. */
  ghost function FillCreated(db: Db, f: Id, buyer: Account, seller: Account, assetIn: Asset, assetOut: Asset, rate: real,
                             a: Asset): nat {
    if a == assetIn && SettleFill(Exact, db, f, buyer, seller, assetIn, assetOut, rate).outcome.Done?
    then Created(TotalFee(db.fills[f].filledQty, rate)) else 0
  }

  ghost function FillsCreated(db: Db, rows: seq<Id>, buyer: Account, seller: Account, assetIn: Asset, assetOut: Asset,
                              rate: real, a: Asset): nat
    decreases |rows|
  {
    if rows == [] then 0
    else FillCreated(db, rows[0], buyer, seller, assetIn, assetOut, rate, a)
         + FillsCreated(SettleFill(Exact, db, rows[0], buyer, seller, assetIn, assetOut, rate).db, rows[1..],
                        buyer, seller, assetIn, assetOut, rate, a)
  }

  ghost function StepCreated(db: Db, s: Step, a: Asset): nat {
    if !s.OnSettle? then 0
    else
      match s.s
      case EventCall(f, _, buyer, seller, tokenIn, tokenOut, rate) =>
        if tokenIn.Known? && tokenOut.Known? then FillCreated(db, f, buyer, seller, tokenIn.asset, tokenOut.asset, rate, a) else 0
      case SettleIntentCall(_, rows, buyer, seller, assetIn, assetOut, rate) =>
        FillsCreated(db, rows, buyer, seller, assetIn, assetOut, rate, a)
      case NewTradeCall(_) => 0
      case SettleTradeCall(_) => 0
  }

  /** What a call makes out of nothing: a self-transfer its amount, a negative fee its size. */
  ghost function StepMinted(db: Db, s: Step, a: Asset): nat {
    StepCreated(db, s, a)
    + if s.OnBalance? && s.b.TransferCall? && s.b.from == s.b.to && s.b.asset == a
         && ApplyBalance(Exact, db, s.b).outcome.Done? && s.b.amount > 0 then s.b.amount else 0
  }

  ghost function RunMinted(x: World, steps: seq<Step>, a: Asset): nat {
    if steps == [] then 0
    else RunMinted(x, steps[..|steps| - 1], a) + StepMinted(Run(Exact, x, steps[..|steps| - 1]).db, steps[|steps| - 1], a)
  }

  lemma FillPostedTotal(db: Db, f: Id, buyer: Account, seller: Account, assetIn: Asset, assetOut: Asset, rate: real, a: Asset)
    ensures Posted(SettleFill(Exact, db, f, buyer, seller, assetIn, assetOut, rate).db.ledger, EVERYONE, a)
            == Posted(db.ledger, EVERYONE, a) + FillCreated(db, f, buyer, seller, assetIn, assetOut, rate, a)
  {
    hide TotalFee, FillBalances, FillLedger, Posted, Held;
    if SettleFill(Exact, db, f, buyer, seller, assetIn, assetOut, rate).outcome.Done? {
      FillTotal(db, f, buyer, seller, assetIn, assetOut, rate, a);
    }
  }

  lemma {:induction false} SettleEachPosted(db: Db, rows: seq<Id>, buyer: Account, seller: Account,
                                            assetIn: Asset, assetOut: Asset, rate: real, a: Asset)
    ensures Posted(SettleEach(Exact, db, rows, buyer, seller, assetIn, assetOut, rate).ledger, EVERYONE, a)
            == Posted(db.ledger, EVERYONE, a) + FillsCreated(db, rows, buyer, seller, assetIn, assetOut, rate, a)
    decreases |rows|
  {
    hide SettleFill, Posted, FillCreated;
    if rows != [] {
      FillPostedTotal(db, rows[0], buyer, seller, assetIn, assetOut, rate, a);
      SettleEachPosted(SettleFill(Exact, db, rows[0], buyer, seller, assetIn, assetOut, rate).db, rows[1..],
                       buyer, seller, assetIn, assetOut, rate, a);
    }
  }

  lemma {:induction false} SettleEachFillsPositive(db: Db, rows: seq<Id>, buyer: Account, seller: Account,
                                                   assetIn: Asset, assetOut: Asset, rate: real)
    requires FillsPositive(db)
    ensures FillsPositive(SettleEach(Exact, db, rows, buyer, seller, assetIn, assetOut, rate))
    decreases |rows|
  {
    hide FillBalances, FillLedger;
    if rows != [] {
      SettleEachFillsPositive(SettleFill(Exact, db, rows[0], buyer, seller, assetIn, assetOut, rate).db, rows[1..],
                              buyer, seller, assetIn, assetOut, rate);
    }
  }

  lemma {:induction false} NothingCreated(db: Db, rows: seq<Id>, buyer: Account, seller: Account,
                                          assetIn: Asset, assetOut: Asset, rate: real, a: Asset)
    requires FillsPositive(db) && rate >= 0.0
    ensures FillsCreated(db, rows, buyer, seller, assetIn, assetOut, rate, a) == 0
    ensures forall f :: FillCreated(db, f, buyer, seller, assetIn, assetOut, rate, a) == 0
    decreases |rows|
  {
    hide TotalFee, FillBalances, FillLedger;
    forall f ensures FillCreated(db, f, buyer, seller, assetIn, assetOut, rate, a) == 0 {
      if f in db.fills { FeeSplit(db.fills[f].filledQty, rate); }
    }
    if rows != [] {
      NothingCreated(SettleFill(Exact, db, rows[0], buyer, seller, assetIn, assetOut, rate).db, rows[1..],
                     buyer, seller, assetIn, assetOut, rate, a);
    }
  }

  /** Intent calls leave fills and ledger alone, balance calls the fills. */
  lemma IntentCallTables(w: Width, db: Db, c: IntentCall)
    ensures ApplyIntent(w, db, c).db.fills == db.fills && ApplyIntent(w, db, c).db.ledger == db.ledger
  {
    hide Row;
    match c {
      case CreateCall(_, _, _, _, _, _, _) =>
      case AmendCall(_, _, _, _, _) =>
      case ReleaseCall(_, _, _) =>
      case ExpireCall(_, _) =>
    }
  }

  lemma BalanceCallTables(w: Width, db: Db, c: BalanceCall)
    ensures ApplyBalance(w, db, c).db.fills == db.fills
  {
    hide Row, Credit, Debit;
    match c {
      case DepositCall(_, _, _) =>
      case WithdrawCall(_, _, _) =>
      case LockCall(_, _, _) =>
      case UnlockCall(_, _, _) =>
      case TransferCall(_, _, _, _) =>
    }
  }

  lemma CloseKeepsFillsPositive(db: Db, i: Id)
    requires FillsPositive(db)
    ensures FillsPositive(CloseAuction(db, i).db)
  {
    if i in db.intents {
      FillsWhole(db.intents[i].amountIn, AcceptedBids(db, i));
      InsertPositive(db.fills, i, CloseDrafts(db, i), db.nextId);
    }
  }

  lemma StepKeepsFillsPositive(db: Db, s: Step)
    requires FillsPositive(db)
    ensures FillsPositive(Apply(Exact, db, s).db)
  {
    match s {
      case OnBalance(c) => BalanceCallTables(Exact, db, c);
      case OnIntent(c) => IntentCallTables(Exact, db, c);
      case OnAuction(c) => if c.CloseCall? { CloseKeepsFillsPositive(db, c.intent); }
      case OnSettle(c) => SettleCallKeepsFillsPositive(db, c);
    }
  }

  lemma SettleCallKeepsFillsPositive(db: Db, c: SettleCall)
    requires FillsPositive(db)
    ensures FillsPositive(ApplySettle(Exact, db, c).db)
  {
    hide SettledQty, FillBalances, FillLedger, TradeBalances;
    match c {
      case EventCall(f, i, buyer, seller, tokenIn, tokenOut, rate) =>
        if tokenIn.Known? && tokenOut.Known? {
          assert FillsPositive(SettleFill(Exact, db, f, buyer, seller, tokenIn.asset, tokenOut.asset, rate).db);
        }
      case SettleIntentCall(i, rows, buyer, seller, assetIn, assetOut, rate) =>
        SettleEachFillsPositive(db, rows, buyer, seller, assetIn, assetOut, rate);
      case NewTradeCall(_) =>
      case SettleTradeCall(id) =>
    }
  }

  lemma BalanceCallPosted(db: Db, h: History, c: BalanceCall, a: Asset)
    ensures Posted(ApplyBalance(Exact, db, c).db.ledger, EVERYONE, a) - Posted(db.ledger, EVERYONE, a)
            == NetDeposits(ObserveBalance(Exact, h, db, c), a) - NetDeposits(h, a)
  {
    hide Posted, Withdraw, Transfer;
    match c {
      case DepositCall(acct, asset, amount) =>
        if 0 < amount {
          PostPosted(db.ledger, Entry(acct, asset, amount, DEBIT, DEPOSIT, db.nextId), EVERYONE, a);
        }
      case WithdrawCall(acct, asset, amount) => WithdrawPosted(db, acct, asset, amount, a);
      case LockCall(_, _, _) =>
      case UnlockCall(_, _, _) =>
      case TransferCall(from, to, asset, amount) => TransferPosted(db, from, to, asset, amount, a);
    }
  }

  lemma WithdrawPosted(db: Db, acct: Account, asset: Asset, amount: int, a: Asset)
    ensures var r := Withdraw(Exact, db, acct, asset, amount);
            Posted(r.db.ledger, EVERYONE, a) == Posted(db.ledger, EVERYONE, a)
              - (if r.outcome.Done? && a == asset then amount else 0)
  {
    PostPosted(db.ledger, Entry(acct, asset, amount, CREDIT, WITHDRAWAL, db.nextId), EVERYONE, a);
  }

  lemma TransferPosted(db: Db, from: Account, to: Account, asset: Asset, amount: int, a: Asset)
    ensures Posted(Transfer(Exact, db, from, to, asset, amount).db.ledger, EVERYONE, a) == Posted(db.ledger, EVERYONE, a)
  {
    DoublePosted(db.ledger, from, to, asset, amount, db.nextId, EVERYONE, a);
  }

  lemma SettleCallPosted(db: Db, c: SettleCall, a: Asset)
    ensures Posted(ApplySettle(Exact, db, c).db.ledger, EVERYONE, a)
            == Posted(db.ledger, EVERYONE, a) + StepCreated(db, OnSettle(c), a)
  {
    hide Posted, SettleFill, TradeBalances, TradeLedger, SettledQty, FillCreated, FillsCreated, Part;
    match c {
      case EventCall(f, i, buyer, seller, tokenIn, tokenOut, rate) =>
        if tokenIn.Known? && tokenOut.Known? {
          FillPostedTotal(db, f, buyer, seller, tokenIn.asset, tokenOut.asset, rate, a);
        }
      case SettleIntentCall(i, rows, buyer, seller, assetIn, assetOut, rate) =>
        SettleEachPosted(db, rows, buyer, seller, assetIn, assetOut, rate, a);
      case NewTradeCall(_) =>
      case SettleTradeCall(id) => if id in db.trades { TradePostedTotal(db.ledger, id, db.trades[id], a); }
    }
  }

  lemma TradePostedTotal(l: seq<Entry>, id: Id, t: Trade, a: Asset)
    ensures Posted(TradeLedger(l, id, t), EVERYONE, a) == Posted(l, EVERYONE, a)
  {
    TradePosted(l, id, t, EVERYONE, a);
  }

  /** The ledger as a whole moves only by deposits, withdrawals and what negative fees create. */
  lemma StepPosted(db: Db, h: History, s: Step, a: Asset)
    ensures Posted(Apply(Exact, db, s).db.ledger, EVERYONE, a) - Posted(db.ledger, EVERYONE, a)
            == NetDeposits(Observe(Exact, h, db, s), a) - NetDeposits(h, a) + StepCreated(db, s, a)
  {
    hide ApplyBalance, ApplyIntent, ApplyAuction, ApplySettle, Posted, PaidSolver, PaidSolvers, FillCreated, FillsCreated;
    match s {
      case OnBalance(c) => BalanceCallPosted(db, h, c, a);
      case OnIntent(c) => IntentCallTables(Exact, db, c);
      case OnAuction(c) => AuctionCallTables(db, c);
      case OnSettle(c) => SettleCallPosted(db, c, a);
    }
  }

  lemma {:induction false} NoFillGap(db: Db, rows: seq<Id>, buyer: Account, seller: Account,
                                     assetIn: Asset, assetOut: Asset, rate: real, a: Asset)
    ensures FillsGap(db, rows, buyer, seller, assetIn, assetOut, rate, EVERYONE, a) == 0
    decreases |rows|
  {
    hide SettleFill, TotalFee, SolverFee;
    if rows != [] {
      NoFillGap(SettleFill(Exact, db, rows[0], buyer, seller, assetIn, assetOut, rate).db, rows[1..],
                buyer, seller, assetIn, assetOut, rate, a);
    }
  }

  /** Of all accounts together the gap grows by self-transfers only. */
  lemma GapOfEveryone(db: Db, s: Step, a: Asset)
    ensures StepGap(db, s, EVERYONE, a) == StepMinted(db, s, a) - StepCreated(db, s, a)
  {
    hide SettleFill, TotalFee, SolverFee, StepCreated, FillsGap;
    match s {
      case OnBalance(c) =>
      case OnIntent(_) =>
      case OnAuction(_) =>
      case OnSettle(c) =>
        if c.SettleIntentCall? { NoFillGap(db, c.rows, c.buyer, c.seller, c.assetIn, c.assetOut, c.rate, a); }
    }
  }

  /** The exact law of conservation, for every run of any calls: per asset the balances of all accounts are the net
      deposits and what the run has minted. */
  lemma {:induction false} ConservationLaw(solverAccounts: map<string, Account>, steps: seq<Step>, a: Asset)
    ensures var x := Run(Exact, Start(solverAccounts), steps);
            Held(x.db.balances, EVERYONE, a) == NetDeposits(x.h, a) + RunMinted(Start(solverAccounts), steps, a)
  {
    if steps != [] {
      var init, last := steps[..|steps| - 1], steps[|steps| - 1];
      var y := Run(Exact, Start(solverAccounts), init);
      ConservationLaw(solverAccounts, init, a);
      StepMovesGap(y.db, last, EVERYONE, a);
      StepPosted(y.db, y.h, last, a);
      GapOfEveryone(y.db, last, a);
      hide Held, Posted, Apply, Observe, StepGap, StepMinted, StepCreated;
    }
  }

  ghost predicate Conserved(x: World) { forall a :: Held(x.db.balances, EVERYONE, a) == NetDeposits(x.h, a) }

  lemma SoundStepMintsNothing(db: Db, s: Step, a: Asset)
    requires FillsPositive(db) && Sound(s)
    ensures StepMinted(db, s, a) == 0
  {
    hide FillCreated, FillsCreated, FillsPositive;
    if s.OnSettle? {
      match s.s {
        case EventCall(f, _, buyer, seller, tokenIn, tokenOut, rate) =>
          if tokenIn.Known? && tokenOut.Known? {
            NothingCreated(db, [], buyer, seller, tokenIn.asset, tokenOut.asset, rate, a);
          }
        case SettleIntentCall(_, rows, buyer, seller, assetIn, assetOut, rate) =>
          NothingCreated(db, rows, buyer, seller, assetIn, assetOut, rate, a);
        case NewTradeCall(_) =>
        case SettleTradeCall(_) =>
      }
    }
  }

  lemma {:induction false} FillsStayPositive(solverAccounts: map<string, Account>, steps: seq<Step>)
    ensures FillsPositive(Run(Exact, Start(solverAccounts), steps).db)
  {
    if steps != [] {
      FillsStayPositive(solverAccounts, steps[..|steps| - 1]);
      StepKeepsFillsPositive(Run(Exact, Start(solverAccounts), steps[..|steps| - 1]).db, steps[|steps| - 1]);
    }
  }

  lemma {:induction false} SoundRunMintsNothing(solverAccounts: map<string, Account>, steps: seq<Step>, a: Asset)
    requires AllSound(steps)
    ensures RunMinted(Start(solverAccounts), steps, a) == 0
  {
    if steps != [] {
      var init, last := steps[..|steps| - 1], steps[|steps| - 1];
      SoundRunMintsNothing(solverAccounts, init, a);
      FillsStayPositive(solverAccounts, init);
      assert Sound(last);
      hide FillsPositive, Sound, StepMinted;
      SoundStepMintsNothing(Run(Exact, Start(solverAccounts), init).db, last, a);
    }
  }

  /** Conservation: after every run of sound calls the balances of all accounts add up, asset by asset,
      to deposits minus withdrawals, even where buyer, seller, solver and platform coincide. */
  lemma ConservationTheorem(solverAccounts: map<string, Account>, steps: seq<Step>)
    requires AllSound(steps)
    ensures Conserved(Run(Exact, Start(solverAccounts), steps))
  {
    var x := Run(Exact, Start(solverAccounts), steps);
    forall a ensures Held(x.db.balances, EVERYONE, a) == NetDeposits(x.h, a) {
      ConservationLaw(solverAccounts, steps, a);
      SoundRunMintsNothing(solverAccounts, steps, a);
    }
  }
}
