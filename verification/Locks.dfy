/** Lock accounting: in every run, what an account has locked of an asset is the sum over its unreleased
    intents of amount_in minus what has settled, so the funds a fill needs are always there. */
module Locks {
  import opened Prelude
  import opened Sums
  import opened Auction
  import opened Accounting
  import opened Exchange
  import opened Runs

  /** What intent `i` keeps locked for (acct, asset). */
  ghost function LockWeight(o: Origin, fills: map<Id, Fill>, acct: Account, asset: Asset): (Id, Intent) -> int {
    (i: Id, t: Intent) =>
      if i in o.owner && o.owner[i] == acct && t.tokenIn == Known(asset) && i !in o.released
      then t.amountIn - SettledQty(fills, i) else 0
  }

  ghost function LockSum(db: Db, o: Origin, acct: Account, asset: Asset): int {
    SumMap(db.intents, LockWeight(o, db.fills, acct, asset))
  }

  predicate Amendable(s: IntentStatus) { s.Open? || s.Bidding? }

  ghost predicate IntentRow(db: Db, o: Origin, i: Id)
    requires i in db.intents
  {
    var t := db.intents[i];
    && t.tokenIn.Known?
    && FilledQty(db.fills, i) <= t.amountIn && 0 <= t.amountIn
    && (Amendable(t.status) ==> i !in o.closed && i !in o.released)
  }

  ghost predicate FillRow(db: Db, o: Origin, f: Id)
    requires f in db.fills
  {
    var fill := db.fills[f];
    fill.filledQty > 0 && fill.qty > 0 && fill.intent in db.intents && fill.intent in o.closed && fill.intent !in o.released
  }

  ghost predicate Shape(db: Db, o: Origin) {
    && o.owner.Keys == db.intents.Keys
    && o.closed <= db.intents.Keys && o.released <= db.intents.Keys
    && (forall i :: i in db.intents ==> i < db.nextId && IntentRow(db, o, i))
    && (forall f :: f in db.fills ==> f < db.nextId && FillRow(db, o, f))
  }

  ghost predicate LocksMatch(db: Db, o: Origin) {
    forall acct, asset {:trigger LockSum(db, o, acct, asset)} ::
      Row(db.balances, acct, asset).locked == LockSum(db, o, acct, asset)
  }

  ghost predicate LockInv(db: Db, o: Origin) { Shape(db, o) && LocksMatch(db, o) }

  // ---------------------------------------------------------------
  // What the calls ask of their callers
  // ---------------------------------------------------------------

  /** The service locks funds behind no intent, so its two lock calls stay out of these runs. */
  ghost predicate BalanceContract(c: BalanceCall) { !c.LockCall? && !c.UnlockCall? }

  /** The account is the one that opened the intent; amounts fit in i64; an intent is released at most once,
      and only while it has no fills. */
  ghost predicate IntentContract(db: Db, o: Origin, c: IntentCall) {
    match c
    case CreateCall(_, _, _, _, _, _, minOrderSize) => minOrderSize >= 0
    case AmendCall(i, acct, newAmountIn, _, _) =>
      && (i in db.intents ==> acct == OwnerOf(o, i))
      && (newAmountIn.Some? ==> newAmountIn.value <= I64_MAX)
    case ReleaseCall(i, acct, _) => i in db.intents ==> acct == OwnerOf(o, i) && i !in o.released && !HasFills(db.fills, i)
    case ExpireCall(i, found) => i in db.intents ==> found == Some(OwnerOf(o, i))
  }

  function OwnerOf(o: Origin, i: Id): Account { if i in o.owner then o.owner[i] else PLATFORM }

  /** An auction runs once, on an intent that has not been released. */
  ghost predicate AuctionContract(db: Db, o: Origin, c: AuctionCall) {
    match c
    case BidCall(_, _, _) => true
    case BeginCall(i) => i !in o.closed && i !in o.released
    case CloseCall(i) => i !in o.closed && i !in o.released
    case ExecuteCall(_) => true
  }

  /** Settlement names the buyer and asset of the intent the fill belongs to. */
  ghost predicate FillContract(db: Db, o: Origin, f: Id, i: Id, buyer: Account, assetIn: Asset) {
    f in db.fills ==>
      && db.fills[f].intent == i
      && buyer == OwnerOf(o, i)
      && (i in db.intents ==> db.intents[i].tokenIn == Known(assetIn))
  }

  ghost predicate SettleContract(db: Db, o: Origin, c: SettleCall) {
    match c
    case EventCall(f, i, buyer, _, tokenIn, _, _) => tokenIn.Known? ==> FillContract(db, o, f, i, buyer, tokenIn.asset)
    case SettleIntentCall(i, rows, buyer, _, assetIn, _, _) =>
      forall r :: r in rows ==> FillContract(db, o, r, i, buyer, assetIn)
    case NewTradeCall(_) => true
    case SettleTradeCall(_) => true
  }

  ghost predicate Contract(db: Db, o: Origin, s: Step) {
    match s
    case OnBalance(c) => BalanceContract(c)
    case OnIntent(c) => IntentContract(db, o, c)
    case OnAuction(c) => AuctionContract(db, o, c)
    case OnSettle(c) => SettleContract(db, o, c)
  }

  // ---------------------------------------------------------------
  // Sums over fills
  // ---------------------------------------------------------------

  lemma NoFillsNoSum(fills: map<Id, Fill>, i: Id)
    requires !HasFills(fills, i)
    ensures FilledQty(fills, i) == 0 && SettledQty(fills, i) == 0
  {
    SumZero(fills, FilledOf(i));
    SumZero(fills, SettledOf(i));
  }

  lemma SettledWithinFilled(fills: map<Id, Fill>, i: Id)
    requires forall f :: f in fills ==> fills[f].filledQty > 0
    ensures 0 <= SettledQty(fills, i) <= FilledQty(fills, i)
  {
    SumNonNegative(fills, SettledOf(i));
    SumLe(fills, SettledOf(i), FilledOf(i));
  }

  lemma MarkSettled(fills: map<Id, Fill>, f: Id, i: Id)
    requires f in fills && !fills[f].settled
    ensures var fills' := fills[f := fills[f].(settled := true)];
            && FilledQty(fills', i) == FilledQty(fills, i)
            && SettledQty(fills', i) == SettledQty(fills, i) + (if fills[f].intent == i then fills[f].filledQty else 0)
  {
    var fills' := fills[f := fills[f].(settled := true)];
    SumChange(fills, fills', FilledOf(i), FilledOf(i), f);
    SumChange(fills, fills', SettledOf(i), SettledOf(i), f);
  }

  lemma {:induction false} InsertSums(fills: map<Id, Fill>, i: Id, drafts: seq<Draft>, firstId: Id, j: Id)
    requires forall f :: f in fills ==> f < firstId
    ensures var fills' := InsertFills(fills, i, drafts, firstId);
            && FilledQty(fills', j) == FilledQty(fills, j) + (if j == i then TotalFilled(drafts) else 0)
            && SettledQty(fills', j) == SettledQty(fills, j)
    decreases |drafts|
  {
    if drafts != [] {
      var d := drafts[0];
      var next := fills[firstId := Fill(i, d.solver, d.price, d.qty, d.filledQty, false)];
      SumChange(fills, next, FilledOf(j), FilledOf(j), firstId);
      SumChange(fills, next, SettledOf(j), SettledOf(j), firstId);
      InsertSums(next, i, drafts[1..], firstId + 1, j);
    }
  }

  /** Every row is an old one or a fresh unsettled positive fill of `i`. */
  ghost predicate OldOrFresh(fills: map<Id, Fill>, fills': map<Id, Fill>, i: Id, limit: Id) {
    && (forall f :: f in fills ==> f in fills' && fills'[f] == fills[f])
    && (forall f :: f in fills' && f !in fills ==>
          f < limit && fills'[f].intent == i && fills'[f].filledQty > 0 && fills'[f].qty > 0 && !fills'[f].settled)
  }

  lemma {:induction false} InsertRows(fills: map<Id, Fill>, i: Id, drafts: seq<Draft>, firstId: Id)
    requires forall f :: f in fills ==> f < firstId
    requires WholeButLast(drafts)
    ensures OldOrFresh(fills, InsertFills(fills, i, drafts, firstId), i, firstId + |drafts|)
    decreases |drafts|
  {
    if drafts != [] {
      var d := drafts[0];
      InsertRows(fills[firstId := Fill(i, d.solver, d.price, d.qty, d.filledQty, false)], i, drafts[1..], firstId + 1);
    }
  }

  // ---------------------------------------------------------------
  // Consequences of the invariant
  // ---------------------------------------------------------------

  lemma WeightsNonNegative(db: Db, o: Origin, acct: Account, asset: Asset)
    requires Shape(db, o)
    ensures forall i :: i in db.intents ==> 0 <= LockWeight(o, db.fills, acct, asset)(i, db.intents[i])
  {
    forall i | i in db.intents ensures 0 <= LockWeight(o, db.fills, acct, asset)(i, db.intents[i]) {
      SettledWithinFilled(db.fills, i);
    }
  }

  lemma LockedNonNegative(db: Db, o: Origin, acct: Account, asset: Asset)
    requires LockInv(db, o)
    ensures 0 <= Row(db.balances, acct, asset).locked
  {
    WeightsNonNegative(db, o, acct, asset);
    SumNonNegative(db.intents, LockWeight(o, db.fills, acct, asset));
    assert 0 <= LockSum(db, o, acct, asset);
  }

  /** A single unreleased intent's remainder is covered by its owner's locked balance. */
  lemma RemainderCovered(db: Db, o: Origin, i: Id)
    requires LockInv(db, o) && i in db.intents && i !in o.released
    ensures db.intents[i].amountIn - SettledQty(db.fills, i)
            <= Row(db.balances, OwnerOf(o, i), db.intents[i].tokenIn.asset).locked
  {
    var acct, asset := OwnerOf(o, i), db.intents[i].tokenIn.asset;
    WeightsNonNegative(db, o, acct, asset);
    SumAtLeast(db.intents, LockWeight(o, db.fills, acct, asset), i);
    assert Weight(db, o, i, acct, asset) <= LockSum(db, o, acct, asset);
  }

  /** `unlock_and_debit` never fails for an unsettled fill. */
  lemma UnlockNeverFails(db: Db, o: Origin, f: Id)
    requires LockInv(db, o) && f in db.fills && !db.fills[f].settled
    ensures var i := db.fills[f].intent;
            UnlockAndDebit(Exact, db.balances, OwnerOf(o, i), db.intents[i].tokenIn.asset, db.fills[f].filledQty).Some?
  {
    var i := db.fills[f].intent;
    assert FillRow(db, o, f) && IntentRow(db, o, i);
    RemainderCovered(db, o, i);
    MarkSettled(db.fills, f, i);
    SettledWithinFilled(db.fills[f := db.fills[f].(settled := true)], i);
  }

  // ---------------------------------------------------------------
  // Balance calls
  // ---------------------------------------------------------------

  ghost predicate SameLocked(b: Balances, b': Balances) {
    forall acct, asset :: Row(b', acct, asset).locked == Row(b, acct, asset).locked
  }

  lemma SameLockedChain(b: Balances, b': Balances, b'': Balances)
    requires SameLocked(b, b') && SameLocked(b', b'')
    ensures SameLocked(b, b'')
  {
  }

  ghost predicate SameBook(db: Db, db': Db) { db'.intents == db.intents && db'.fills == db.fills && db.nextId <= db'.nextId }

  lemma SameBookKeeps(db: Db, db': Db, o: Origin)
    requires LockInv(db, o) && SameBook(db, db') && SameLocked(db.balances, db'.balances)
    ensures LockInv(db', o)
  {
    assert forall i :: i in db.intents ==> IntentRow(db', o, i) == IntentRow(db, o, i);
    assert forall f :: f in db.fills ==> FillRow(db', o, f) == FillRow(db, o, f);
    forall acct, asset ensures Row(db'.balances, acct, asset).locked == LockSum(db', o, acct, asset) {
      assert Row(db.balances, acct, asset).locked == LockSum(db, o, acct, asset);
    }
  }

  lemma CreditLocked(w: Width, b: Balances, acct: Account, asset: Asset, amount: int)
    ensures SameLocked(b, Credit(w, b, acct, asset, amount))
    ensures Debit(w, b, acct, asset, amount).Some? ==> SameLocked(b, Debit(w, b, acct, asset, amount).value)
    ensures SameLocked(b, Touch(b, acct, asset))
  {
  }

  lemma MoveLocked(w: Width, b: Balances, from: Account, to: Account, asset: Asset, amount: int)
    ensures SameLocked(b, MoveRows(w, b, from, to, asset, amount))
  {
  }

  lemma DepositLocks(db: Db, o: Origin, acct: Account, asset: Asset, amount: int)
    requires LockInv(db, o)
    ensures LockInv(Deposit(Exact, db, acct, asset, amount).db, o)
  {
    if 0 < amount {
      CreditLocked(Exact, db.balances, acct, asset, amount);
      SameBookKeeps(db, Deposit(Exact, db, acct, asset, amount).db, o);
    }
  }

  lemma WithdrawLocks(db: Db, o: Origin, acct: Account, asset: Asset, amount: int)
    requires LockInv(db, o)
    ensures LockInv(Withdraw(Exact, db, acct, asset, amount).db, o)
  {
    hide SameLocked;
    if 0 < amount {
      CreditLocked(Exact, db.balances, acct, asset, amount);
      SameBookKeeps(db, Withdraw(Exact, db, acct, asset, amount).db, o);
    }
  }

  lemma TransferLocks(db: Db, o: Origin, from: Account, to: Account, asset: Asset, amount: int)
    requires LockInv(db, o)
    ensures LockInv(Transfer(Exact, db, from, to, asset, amount).db, o)
  {
    hide SameLocked, LockInv;
    if 0 < amount {
      CreditLocked(Exact, db.balances, from, asset, amount);
      MoveLocked(Exact, Touch(db.balances, from, asset), from, to, asset, amount);
      SameBookKeeps(db, Transfer(Exact, db, from, to, asset, amount).db, o);
    }
  }

  lemma BalanceCallLocks(db: Db, o: Origin, c: BalanceCall)
    requires LockInv(db, o) && BalanceContract(c)
    ensures LockInv(ApplyBalance(Exact, db, c).db, o)
  {
    match c {
      case DepositCall(acct, asset, amount) => DepositLocks(db, o, acct, asset, amount);
      case WithdrawCall(acct, asset, amount) => WithdrawLocks(db, o, acct, asset, amount);
      case TransferCall(from, to, asset, amount) => TransferLocks(db, o, from, to, asset, amount);
    }
  }

  // ---------------------------------------------------------------
  // Intent calls
  // ---------------------------------------------------------------

  /** Only the locked column of (acct, asset) changes, by `delta`. */
  ghost predicate LockedMoves(b: Balances, b': Balances, acct: Account, asset: Asset, delta: int) {
    forall x, a :: Row(b', x, a).locked == Row(b, x, a).locked + if x == acct && a == asset then delta else 0
  }

  /** Only intent `i` changes, be it its row, its owner (when it is new) or its release. */
  ghost predicate OnlyIntent(db: Db, db': Db, o: Origin, o': Origin, i: Id) {
    && db'.fills == db.fills && db'.intents.Keys == db.intents.Keys + {i}
    && (forall j :: j in db.intents && j != i ==> db'.intents[j] == db.intents[j])
    && (forall j :: j in o.owner && j != i ==> j in o'.owner && o'.owner[j] == o.owner[j])
    && (forall j :: j in o'.owner && j != i ==> j in o.owner)
    && (forall j :: j != i ==> (j in o'.released <==> j in o.released))
  }

  /** `i` belongs to acct and locks asset, before (if it existed) and after. */
  predicate LocksFor(intents: map<Id, Intent>, o: Origin, i: Id, acct: Account, asset: Asset) {
    i in intents ==> i in o.owner && o.owner[i] == acct && intents[i].tokenIn == Known(asset)
  }

  ghost function Weight(db: Db, o: Origin, i: Id, acct: Account, asset: Asset): int {
    if i in db.intents then LockWeight(o, db.fills, acct, asset)(i, db.intents[i]) else 0
  }

  lemma OneIntentChanges(db: Db, db': Db, o: Origin, o': Origin, i: Id, acct: Account, asset: Asset)
    requires LocksMatch(db, o) && OnlyIntent(db, db', o, o', i)
    requires LocksFor(db.intents, o, i, acct, asset) && LocksFor(db'.intents, o', i, acct, asset)
    requires LockedMoves(db.balances, db'.balances, acct, asset,
                         Weight(db', o', i, acct, asset) - Weight(db, o, i, acct, asset))
    ensures LocksMatch(db', o')
  {
    hide SumMap, SettledQty, Row, Shift;
    forall x, a ensures Row(db'.balances, x, a).locked == LockSum(db', o', x, a) {
      assert Row(db.balances, x, a).locked == LockSum(db, o, x, a);
      SumChange(db.intents, db'.intents, LockWeight(o, db.fills, x, a), LockWeight(o', db.fills, x, a), i);
    }
  }

  lemma ShiftRows(w: Width, b: Balances, acct: Account, asset: Asset, dAvailable: int, dLocked: int)
    requires Shift(w, b, acct, asset, dAvailable, dLocked).Some?
    requires (acct, asset) in b || dLocked == 0
    ensures LockedMoves(b, Shift(w, b, acct, asset, dAvailable, dLocked).value, acct, asset, dLocked)
  {
  }

  lemma CreateKeepsShape(db: Db, o: Origin, b: Balances, acct: Account, t: Intent)
    requires Shape(db, o) && t.tokenIn.Known? && 0 <= t.amountIn
    ensures Shape(db.(balances := b, intents := db.intents[db.nextId := t], nextId := db.nextId + 1),
                  o.(owner := o.owner[db.nextId := acct]))
    ensures SettledQty(db.fills, db.nextId) == 0
  {
    assert forall f :: f in db.fills ==> FillRow(db, o, f);
    assert !HasFills(db.fills, db.nextId);
    NoFillsNoSum(db.fills, db.nextId);
    assert forall j :: j in db.intents ==> IntentRow(db, o, j);
  }

  lemma CreateLocks(db: Db, o: Origin, acct: Account, tokenIn: Token, tokenOut: Token, amountIn: nat, minAmountOut: nat,
                    riskOk: bool, minOrderSize: int)
    requires LockInv(db, o) && minOrderSize >= 0
    ensures var r := CreateIntent(Exact, db, acct, tokenIn, tokenOut, amountIn, minAmountOut, riskOk, minOrderSize);
            LockInv(r.db, if r.outcome.Done? then o.(owner := o.owner[db.nextId := acct]) else o)
  {
    hide SumMap, SettledQty, LocksMatch, IntentRow, FillRow, HasFills;
    var r := CreateIntent(Exact, db, acct, tokenIn, tokenOut, amountIn, minAmountOut, riskOk, minOrderSize);
    if r.outcome.Done? {
      var i, amount := db.nextId, AsI64(amountIn);
      var o' := o.(owner := o.owner[i := acct]);
      CreateKeepsShape(db, o, r.db.balances, acct, r.db.intents[i]);
      ShiftRows(Exact, db.balances, acct, tokenIn.asset, -amount, amount);
      OneIntentChanges(db, r.db, o, o', i, acct, tokenIn.asset);
    }
  }

  /** An intent that can be amended has not been through an auction, so nothing of it has settled. */
  lemma AmendableUnfilled(db: Db, o: Origin, i: Id)
    requires Shape(db, o) && i in db.intents && i !in o.closed
    ensures !HasFills(db.fills, i) && FilledQty(db.fills, i) == 0 && SettledQty(db.fills, i) == 0
  {
    assert forall f :: f in db.fills ==> FillRow(db, o, f);
    NoFillsNoSum(db.fills, i);
  }

  lemma OneRowKeepsShape(db: Db, o: Origin, i: Id, t: Intent, b: Balances)
    requires Shape(db, o) && i in db.intents && t.tokenIn.Known?
    requires FilledQty(db.fills, i) <= t.amountIn && 0 <= t.amountIn
    requires Amendable(t.status) ==> i !in o.closed && i !in o.released
    ensures Shape(db.(intents := db.intents[i := t], balances := b), o)
  {
    var db' := db.(intents := db.intents[i := t], balances := b);
    assert forall f :: f in db.fills ==> FillRow(db, o, f) && FillRow(db', o, f);
    assert forall j :: j in db.intents ==> IntentRow(db, o, j);
  }

  lemma NothingMoves(b: Balances, acct: Account, asset: Asset)
    ensures LockedMoves(b, b, acct, asset, 0)
  {
  }

  lemma StatusLocks(db: Db, o: Origin, i: Id, status: IntentStatus)
    requires LockInv(db, o) && i in db.intents
    requires Amendable(status) ==> i !in o.closed && i !in o.released
    ensures LockInv(SetStatus(db, i, status), o)
  {
    hide Shape, LocksMatch, LockedMoves, OnlyIntent, SumMap, SettledQty, FilledQty;
    var t := db.intents[i].(status := status);
    OwnedRow(db, o, i);
    OneRowKeepsShape(db, o, i, t, db.balances);
    OneRowOnly(db, o, i, t, db.balances, o.released);
    NothingMoves(db.balances, OwnerOf(o, i), t.tokenIn.asset);
    OneIntentChanges(db, SetStatus(db, i, status), o, o, i, OwnerOf(o, i), t.tokenIn.asset);
  }

  /** Writing one existing row is a change of that intent only. */
  lemma OneRowOnly(db: Db, o: Origin, i: Id, t: Intent, b: Balances, released: set<Id>)
    requires i in db.intents && (released == o.released || released == o.released + {i})
    ensures OnlyIntent(db, db.(intents := db.intents[i := t], balances := b), o, o.(released := released), i)
  {
  }

  lemma OwnedRow(db: Db, o: Origin, i: Id)
    requires Shape(db, o) && i in db.intents
    ensures i in o.owner && o.owner[i] == OwnerOf(o, i) && IntentRow(db, o, i)
  {
  }

  /** Replace one intent row and move as much in its owner's locked column. */
  lemma ReplaceRow(db: Db, o: Origin, i: Id, t: Intent, b: Balances)
    requires LockInv(db, o) && i in db.intents && i !in o.closed && i !in o.released
    requires t.tokenIn == db.intents[i].tokenIn && 0 <= t.amountIn
    requires LockedMoves(db.balances, b, OwnerOf(o, i), t.tokenIn.asset, t.amountIn - db.intents[i].amountIn)
    ensures LockInv(db.(intents := db.intents[i := t], balances := b), o)
  {
    hide Shape, LocksMatch, LockedMoves, OnlyIntent, SumMap, SettledQty, FilledQty, HasFills;
    OwnedRow(db, o, i);
    AmendableUnfilled(db, o, i);
    OneRowKeepsShape(db, o, i, t, b);
    OneRowOnly(db, o, i, t, b, o.released);
    OneIntentChanges(db, db.(intents := db.intents[i := t], balances := b), o, o, i, OwnerOf(o, i), t.tokenIn.asset);
  }

  lemma AmendLocks(db: Db, o: Origin, i: Id, acct: Account, newAmountIn: Option<nat>, newMinAmountOut: Option<nat>,
                   newLimitPrice: Option<int>)
    requires LockInv(db, o) && (i in db.intents ==> acct == OwnerOf(o, i))
    requires newAmountIn.Some? ==> newAmountIn.value <= I64_MAX
    ensures LockInv(AmendIntent(Exact, db, i, acct, newAmountIn, newMinAmountOut, newLimitPrice).db, o)
  {
    hide SumMap, SettledQty, FilledQty, LocksMatch;
    var r := AmendIntent(Exact, db, i, acct, newAmountIn, newMinAmountOut, newLimitPrice);
    if r.outcome.Done? {
      var t, t' := db.intents[i], r.db.intents[i];
      assert IntentRow(db, o, i);
      AmendableUnfilled(db, o, i);
      RemainderCovered(db, o, i);
      var diff := t'.amountIn - t.amountIn;
      ShiftRows(Exact, db.balances, acct, t.tokenIn.asset, -diff, diff);
      ReplaceRow(db, o, i, t', r.db.balances);
      assert r.db == db.(intents := db.intents[i := t'], balances := r.db.balances);
    }
  }

  /** Give the lock of an unfilled intent back and mark it released. */
  lemma GiveBack(db: Db, o: Origin, i: Id, t: Intent, b: Balances)
    requires LockInv(db, o) && i in db.intents && i !in o.released && !HasFills(db.fills, i)
    requires t == db.intents[i].(status := t.status) && !Amendable(t.status)
    requires LockedMoves(db.balances, b, OwnerOf(o, i), t.tokenIn.asset, -t.amountIn)
    ensures LockInv(db.(intents := db.intents[i := t], balances := b), o.(released := o.released + {i}))
  {
    hide Shape, LocksMatch, LockedMoves, OnlyIntent, SumMap, SettledQty, FilledQty, HasFills;
    var db', o' := db.(intents := db.intents[i := t], balances := b), o.(released := o.released + {i});
    OwnedRow(db, o, i);
    NoFillsNoSum(db.fills, i);
    OneRowKeepsShape(db, o, i, t, b);
    ReleaseKeepsShape(db', o, i);
    OneRowOnly(db, o, i, t, b, o'.released);
    OneIntentChanges(db, db', o, o', i, OwnerOf(o, i), t.tokenIn.asset);
  }

  /** The lock of an unfilled intent is there to give back. */
  lemma GiveBackRow(db: Db, o: Origin, i: Id)
    requires LockInv(db, o) && i in db.intents && i !in o.released && !HasFills(db.fills, i)
    ensures var t := db.intents[i];
            var r := Shift(Exact, db.balances, OwnerOf(o, i), t.tokenIn.asset, t.amountIn, -t.amountIn);
            && r.Some?
            && t.amountIn <= Row(db.balances, OwnerOf(o, i), t.tokenIn.asset).locked
            && LockedMoves(db.balances, r.value, OwnerOf(o, i), t.tokenIn.asset, -t.amountIn)
  {
    var t, acct := db.intents[i], OwnerOf(o, i);
    assert IntentRow(db, o, i);
    NoFillsNoSum(db.fills, i);
    RemainderCovered(db, o, i);
    ShiftRows(Exact, db.balances, acct, t.tokenIn.asset, t.amountIn, -t.amountIn);
  }

  lemma ReleaseKeepsShape(db: Db, o: Origin, i: Id)
    requires Shape(db, o) && i in db.intents && !HasFills(db.fills, i) && !Amendable(db.intents[i].status)
    ensures Shape(db, o.(released := o.released + {i}))
  {
    assert forall f :: f in db.fills ==> FillRow(db, o, f);
    assert forall j :: j in db.intents ==> IntentRow(db, o, j);
  }

  lemma ReleaseLocks(db: Db, o: Origin, i: Id, acct: Account, status: IntentStatus)
    requires LockInv(db, o) && !Amendable(status)
    requires i in db.intents ==> acct == OwnerOf(o, i) && i !in o.released && !HasFills(db.fills, i)
    ensures var r := ReleaseIntent(Exact, db, i, acct, status);
            LockInv(r.db, if r.outcome.Done? then o.(released := o.released + {i}) else o)
  {
    if i in db.intents {
      var t := db.intents[i];
      assert IntentRow(db, o, i);
      GiveBackRow(db, o, i);
      var b := Shift(Exact, db.balances, acct, t.tokenIn.asset, t.amountIn, -t.amountIn).value;
      GiveBack(db, o, i, t.(status := status), b);
      assert ReleaseIntent(Exact, db, i, acct, status) ==
             Result(db.(intents := db.intents[i := t.(status := status)], balances := b), Done);
    }
  }

  lemma ExpireLocks(db: Db, o: Origin, i: Id, found: Option<Account>)
    requires LockInv(db, o) && (i in db.intents ==> found == Some(OwnerOf(o, i)))
    ensures var r := ExpireIntent(Exact, db, i, found);
            LockInv(r.db, if r.outcome.Done? then o.(released := o.released + {i}) else o)
  {
    if i in db.intents && Amendable(db.intents[i].status) {
      var t := db.intents[i];
      assert IntentRow(db, o, i);
      AmendableUnfilled(db, o, i);
      GiveBackRow(db, o, i);
      var b := Shift(Exact, db.balances, found.value, t.tokenIn.asset, t.amountIn, -t.amountIn).value;
      GiveBack(db, o, i, t.(status := Expired), b);
      assert ExpireIntent(Exact, db, i, found) ==
             Result(db.(intents := db.intents[i := t.(status := Expired)], balances := b), Done);
    }
  }

  lemma IntentCallLocks(db: Db, o: Origin, c: IntentCall)
    requires LockInv(db, o) && IntentContract(db, o, c)
    ensures LockInv(ApplyIntent(Exact, db, c).db, OriginOfIntent(Exact, o, db, c))
  {
    match c {
      case CreateCall(acct, tokenIn, tokenOut, amountIn, minAmountOut, riskOk, minOrderSize) =>
        CreateLocks(db, o, acct, tokenIn, tokenOut, amountIn, minAmountOut, riskOk, minOrderSize);
      case AmendCall(i, acct, newAmountIn, newMinAmountOut, newLimitPrice) =>
        AmendLocks(db, o, i, acct, newAmountIn, newMinAmountOut, newLimitPrice);
      case ReleaseCall(i, acct, failed) => ReleaseLocks(db, o, i, acct, if failed then Failed else Cancelled);
      case ExpireCall(i, found) => ExpireLocks(db, o, i, found);
    }
  }

  // ---------------------------------------------------------------
  // Auction calls
  // ---------------------------------------------------------------

  /** New unsettled fills change no lock. */
  lemma UnsettledFillsKeepLocks(db: Db, o: Origin, o': Origin, fills': map<Id, Fill>, nextId: Id)
    requires LocksMatch(db, o) && o'.owner == o.owner && o'.released == o.released
    requires forall j :: SettledQty(fills', j) == SettledQty(db.fills, j)
    ensures LocksMatch(db.(fills := fills', nextId := nextId), o')
  {
    var db' := db.(fills := fills', nextId := nextId);
    forall x, a ensures Row(db'.balances, x, a).locked == LockSum(db', o', x, a) {
      assert Row(db.balances, x, a).locked == LockSum(db, o, x, a);
      SumAgree(db.intents, db.intents, LockWeight(o, db.fills, x, a), LockWeight(o', fills', x, a));
    }
  }

  lemma InsertKeepsShape(db: Db, o: Origin, i: Id, drafts: seq<Draft>)
    requires Shape(db, o) && i in db.intents && i !in o.released
    requires WholeButLast(drafts) && FilledQty(db.fills, i) + TotalFilled(drafts) <= db.intents[i].amountIn
    requires !Amendable(db.intents[i].status)
    ensures Shape(db.(fills := InsertFills(db.fills, i, drafts, db.nextId), nextId := db.nextId + |drafts|),
                  o.(closed := o.closed + {i}))
  {
    var db' := db.(fills := InsertFills(db.fills, i, drafts, db.nextId), nextId := db.nextId + |drafts|);
    var o' := o.(closed := o.closed + {i});
    InsertRows(db.fills, i, drafts, db.nextId);
    forall f | f in db'.fills ensures f < db'.nextId && FillRow(db', o', f) {
      if f in db.fills { assert FillRow(db, o, f); }
    }
    forall j | j in db.intents ensures j < db'.nextId && IntentRow(db', o', j) {
      assert IntentRow(db, o, j);
      InsertSums(db.fills, i, drafts, db.nextId, j);
    }
  }

  lemma InsertLocks(db: Db, o: Origin, i: Id, drafts: seq<Draft>)
    requires LockInv(db, o) && i in db.intents && i !in o.released
    requires WholeButLast(drafts) && FilledQty(db.fills, i) + TotalFilled(drafts) <= db.intents[i].amountIn
    requires !Amendable(db.intents[i].status)
    ensures LockInv(db.(fills := InsertFills(db.fills, i, drafts, db.nextId), nextId := db.nextId + |drafts|),
                    o.(closed := o.closed + {i}))
  {
    hide SumMap, SettledQty, FilledQty, InsertFills, LocksMatch, TotalFilled, WholeButLast, IntentRow, FillRow;
    InsertKeepsShape(db, o, i, drafts);
    forall j ensures SettledQty(InsertFills(db.fills, i, drafts, db.nextId), j) == SettledQty(db.fills, j) {
      InsertSums(db.fills, i, drafts, db.nextId, j);
    }
    UnsettledFillsKeepLocks(db, o, o.(closed := o.closed + {i}),
                            InsertFills(db.fills, i, drafts, db.nextId), db.nextId + |drafts|);
  }

  lemma MarkAndInsertLocks(db: Db, o: Origin, i: Id, status: IntentStatus, drafts: seq<Draft>, marked: Db, db': Db)
    requires LockInv(db, o) && i in db.intents && i !in o.released
    requires WholeButLast(drafts) && FilledQty(db.fills, i) + TotalFilled(drafts) <= db.intents[i].amountIn
    requires !Amendable(status)
    requires marked == SetStatus(db, i, status) && db' == WithFills(marked, i, drafts)
    ensures LockInv(db', o.(closed := o.closed + {i}))
  {
    hide LockInv, SettledQty, FilledQty, InsertFills, TotalFilled, WholeButLast;
    StatusLocks(db, o, i, status);
    assert marked.intents[i].amountIn == db.intents[i].amountIn && marked.intents[i].status == status;
    InsertLocks(marked, o, i, drafts);
  }

  lemma DraftsFit(amountIn: int, bids: seq<Bid>)
    requires 0 <= amountIn
    ensures WholeButLast(GenerateFills(amountIn, bids)) && TotalFilled(GenerateFills(amountIn, bids)) <= amountIn
  {
    FillsWhole(amountIn, bids);
    FillsSum(amountIn, bids);
  }

  /** A close keeps the accounting as long as the order has room for the fills it inserts. */
  lemma CloseWithRoom(db: Db, o: Origin, i: Id)
    requires LockInv(db, o) && i in db.intents && i !in o.released
    requires FilledQty(db.fills, i) + TotalFilled(CloseDrafts(db, i)) <= db.intents[i].amountIn
    ensures LockInv(CloseAuction(db, i).db, o.(closed := o.closed + {i}))
  {
    assert IntentRow(db, o, i);
    DraftsFit(db.intents[i].amountIn, AcceptedBids(db, i));
    MarkAndInsertLocks(db, o, i, CloseStatus(db, i), CloseDrafts(db, i), SetStatus(db, i, CloseStatus(db, i)),
                       CloseAuction(db, i).db);
  }

  lemma CloseLocks(db: Db, o: Origin, i: Id)
    requires LockInv(db, o) && i in db.intents && i !in o.closed && i !in o.released
    ensures LockInv(CloseAuction(db, i).db, o.(closed := o.closed + {i}))
  {
    assert IntentRow(db, o, i);
    AmendableUnfilled(db, o, i);
    DraftsFit(db.intents[i].amountIn, AcceptedBids(db, i));
    CloseWithRoom(db, o, i);
  }

  lemma AuctionCallLocks(db: Db, o: Origin, c: AuctionCall)
    requires LockInv(db, o) && AuctionContract(db, o, c)
    ensures LockInv(ApplyAuction(db, c).db, OriginOfAuction(o, db, c))
  {
    hide LockInv;
    match c {
      case BidCall(i, bid, riskOk) => SameBookKeeps(db, SubmitBid(db, i, bid, riskOk).db, o);
      case BeginCall(i) => if i in db.intents { StatusLocks(db, o, i, Bidding); }
      case CloseCall(i) => if i in db.intents { CloseLocks(db, o, i); }
      case ExecuteCall(i) => if i in db.intents { StatusLocks(db, o, i, Executing); }
    }
  }

  // ---------------------------------------------------------------
  // Settlement calls
  // ---------------------------------------------------------------

  lemma SwapLocked(w: Width, b: Balances, buyer: Account, seller: Account, assetIn: Asset, assetOut: Asset,
                   receives: int, out: int)
    requires Swap(w, b, buyer, seller, assetIn, assetOut, receives, out).Some?
    ensures SameLocked(b, Swap(w, b, buyer, seller, assetIn, assetOut, receives, out).value)
  {
    var b1 := Credit(w, b, seller, assetIn, receives);
    CreditLocked(w, b, seller, assetIn, receives);
    CreditLocked(w, b1, buyer, assetOut, out);
    CreditLocked(w, Credit(w, b1, buyer, assetOut, out), seller, assetOut, out);
  }

  lemma PayOutLocked(w: Width, b: Balances, buyer: Account, seller: Account, solver: Account, assetIn: Asset, assetOut: Asset,
                     receives: int, out: int, platformFee: int, solverFee: int)
    requires PayOut(w, b, buyer, seller, solver, assetIn, assetOut, receives, out, platformFee, solverFee).Some?
    ensures SameLocked(b, PayOut(w, b, buyer, seller, solver, assetIn, assetOut, receives, out, platformFee, solverFee).value)
  {
    hide Swap, Row, Credit;
    SwapLocked(w, b, buyer, seller, assetIn, assetOut, receives, out);
    var b1 := Swap(w, b, buyer, seller, assetIn, assetOut, receives, out).value;
    CreditLocked(w, b1, PLATFORM, assetIn, platformFee);
    CreditLocked(w, CreditFee(w, b1, PLATFORM, assetIn, platformFee), solver, assetIn, solverFee);
  }

  lemma MoveThenSame(b: Balances, b': Balances, b'': Balances, acct: Account, asset: Asset, delta: int)
    requires LockedMoves(b, b', acct, asset, delta) && SameLocked(b', b'')
    ensures LockedMoves(b, b'', acct, asset, delta)
  {
    hide Row;
  }

  lemma ChargeAndPayLocked(w: Width, b: Balances, buyer: Account, seller: Account, solver: Account,
                           assetIn: Asset, assetOut: Asset, paid: int, out: int, fee: int, solverFee: int)
    requires ChargeAndPay(w, b, buyer, seller, solver, assetIn, assetOut, paid, out, fee, solverFee).Some?
    ensures LockedMoves(b, ChargeAndPay(w, b, buyer, seller, solver, assetIn, assetOut, paid, out, fee, solverFee).value,
                        buyer, assetIn, -paid)
  {
    hide PayOut, Shift, Row, LockedMoves, SameLocked;
    var b0 := UnlockAndDebit(w, b, buyer, assetIn, paid).value;
    ShiftRows(w, b, buyer, assetIn, 0, -paid);
    PayOutLocked(w, b0, buyer, seller, solver, assetIn, assetOut, paid - fee, out, fee - solverFee, solverFee);
    MoveThenSame(b, b0, ChargeAndPay(w, b, buyer, seller, solver, assetIn, assetOut, paid, out, fee, solverFee).value,
                 buyer, assetIn, -paid);
  }

  lemma FillLocked(w: Width, db: Db, f: Id, buyer: Account, seller: Account, assetIn: Asset, assetOut: Asset, rate: real)
    requires f in db.fills && FillBalances(w, db, f, buyer, seller, assetIn, assetOut, rate).Some?
    ensures LockedMoves(db.balances, FillBalances(w, db, f, buyer, seller, assetIn, assetOut, rate).value,
                        buyer, assetIn, -db.fills[f].filledQty)
  {
    var fill := db.fills[f];
    var fee := TotalFee(fill.filledQty, rate);
    ChargeAndPayLocked(w, db.balances, buyer, seller, SolverAccount(db, fill.solver), assetIn, assetOut,
                       fill.filledQty, fill.qty, fee, SolverFee(fee));
  }

  lemma MarkKeepsShape(db: Db, o: Origin, f: Id, b: Balances, l: seq<Entry>)
    requires Shape(db, o) && f in db.fills && !db.fills[f].settled
    ensures Shape(db.(balances := b, ledger := l, fills := db.fills[f := db.fills[f].(settled := true)]), o)
  {
    var db' := db.(balances := b, ledger := l, fills := db.fills[f := db.fills[f].(settled := true)]);
    forall g | g in db'.fills ensures FillRow(db', o, g) { assert FillRow(db, o, g); }
    forall j | j in db.intents ensures IntentRow(db', o, j) {
      assert IntentRow(db, o, j);
      MarkSettled(db.fills, f, j);
    }
  }

  lemma MarkedWeight(db: Db, o: Origin, f: Id, x: Account, a: Asset, j: Id)
    requires f in db.fills && !db.fills[f].settled && j in db.intents && j in o.owner
    requires db.fills[f].intent !in o.released
    ensures LockWeight(o, db.fills[f := db.fills[f].(settled := true)], x, a)(j, db.intents[j]) ==
            LockWeight(o, db.fills, x, a)(j, db.intents[j]) -
              if j == db.fills[f].intent && x == o.owner[j] && Known(a) == db.intents[j].tokenIn then db.fills[f].filledQty else 0
  {
    MarkSettled(db.fills, f, j);
  }

  /** Marking a fill settled takes its quantity out of its intent's lock and of no other. */
  lemma MarkedSum(db: Db, o: Origin, f: Id, x: Account, a: Asset)
    requires Shape(db, o) && f in db.fills && !db.fills[f].settled && db.fills[f].intent in db.intents
    ensures var i := db.fills[f].intent;
            LockSum(db.(fills := db.fills[f := db.fills[f].(settled := true)]), o, x, a) == LockSum(db, o, x, a) -
              if x == OwnerOf(o, i) && Known(a) == db.intents[i].tokenIn then db.fills[f].filledQty else 0
  {
    hide SumMap, SettledQty, FilledQty;
    var i, fills' := db.fills[f].intent, db.fills[f := db.fills[f].(settled := true)];
    assert FillRow(db, o, f);
    var was, now := LockWeight(o, db.fills, x, a), LockWeight(o, fills', x, a);
    forall j | j in db.intents && j != i ensures was(j, db.intents[j]) == now(j, db.intents[j]) {
      MarkedWeight(db, o, f, x, a, j);
    }
    MarkedWeight(db, o, f, x, a, i);
    SumChange(db.intents, db.intents, was, now, i);
  }

  lemma MarkedMatch(db: Db, o: Origin, f: Id, i: Id, fills': map<Id, Fill>, db': Db)
    requires LockInv(db, o) && f in db.fills && !db.fills[f].settled && db.fills[f].intent == i && i in db.intents
    requires db.intents[i].tokenIn.Known? && fills' == db.fills[f := db.fills[f].(settled := true)]
    requires db'.intents == db.intents && db'.fills == fills'
    requires LockedMoves(db.balances, db'.balances, OwnerOf(o, i), db.intents[i].tokenIn.asset, -db.fills[f].filledQty)
    ensures LocksMatch(db', o)
  {
    hide SumMap, SettledQty, Shape, Row;
    forall x, a ensures Row(db'.balances, x, a).locked == LockSum(db', o, x, a) {
      assert Row(db.balances, x, a).locked == LockSum(db, o, x, a);
      MarkedSum(db, o, f, x, a);
      assert LockSum(db', o, x, a) == LockSum(db.(fills := fills'), o, x, a);
    }
  }

  lemma SettleFillLocks(db: Db, o: Origin, f: Id, i: Id, buyer: Account, seller: Account, assetIn: Asset, assetOut: Asset,
                        rate: real)
    requires LockInv(db, o) && FillContract(db, o, f, i, buyer, assetIn)
    ensures LockInv(SettleFill(Exact, db, f, buyer, seller, assetIn, assetOut, rate).db, o)
  {
    hide FillBalances, FillLedger, LocksMatch, SettledQty, FilledQty;
    var r := SettleFill(Exact, db, f, buyer, seller, assetIn, assetOut, rate);
    if r.outcome.Done? {
      assert FillRow(db, o, f) && IntentRow(db, o, i);
      FillLocked(Exact, db, f, buyer, seller, assetIn, assetOut, rate);
      MarkKeepsShape(db, o, f, r.db.balances, r.db.ledger);
      MarkedMatch(db, o, f, i, r.db.fills, r.db);
    }
  }

  /** Settling one fill changes nothing another settlement's contract looks at. */
  lemma ContractKept(db: Db, o: Origin, f: Id, g: Id, i: Id, buyer: Account, seller: Account, assetIn: Asset, assetOut: Asset,
                     rate: real)
    requires FillContract(db, o, g, i, buyer, assetIn)
    ensures FillContract(SettleFill(Exact, db, f, buyer, seller, assetIn, assetOut, rate).db, o, g, i, buyer, assetIn)
  {
  }

  lemma {:induction false} SettleEachLocks(db: Db, o: Origin, rows: seq<Id>, i: Id, buyer: Account, seller: Account,
                                           assetIn: Asset, assetOut: Asset, rate: real)
    requires LockInv(db, o) && forall r :: r in rows ==> FillContract(db, o, r, i, buyer, assetIn)
    ensures LockInv(SettleEach(Exact, db, rows, buyer, seller, assetIn, assetOut, rate), o)
    decreases |rows|
  {
    if rows != [] {
      var next := SettleFill(Exact, db, rows[0], buyer, seller, assetIn, assetOut, rate).db;
      SettleFillLocks(db, o, rows[0], i, buyer, seller, assetIn, assetOut, rate);
      forall r | r in rows[1..] ensures FillContract(next, o, r, i, buyer, assetIn) {
        ContractKept(db, o, rows[0], r, i, buyer, seller, assetIn, assetOut, rate);
      }
      SettleEachLocks(next, o, rows[1..], i, buyer, seller, assetIn, assetOut, rate);
    }
  }

  lemma UpdateStatusLocks(db: Db, o: Origin, i: Id)
    requires LockInv(db, o)
    ensures LockInv(UpdateStatus(db, i), o)
  {
    hide SettledQty, LockInv;
    if i in db.intents {
      StatusLocks(db, o, i, Completed);
      StatusLocks(db, o, i, PartiallyFilled);
    }
  }

  lemma TradeLocked(w: Width, b: Balances, t: Trade)
    requires TradeBalances(w, b, t).Some?
    ensures SameLocked(b, TradeBalances(w, b, t).value)
  {
    hide Swap, Row, SameLocked;
    var receives := t.amountIn - t.platformFee - t.solverFee;
    var b0 := Debit(w, b, t.buyer, t.assetIn, t.amountIn).value;
    CreditLocked(w, b, t.buyer, t.assetIn, t.amountIn);
    var b1 := Swap(w, b0, t.buyer, t.seller, t.assetIn, t.assetOut, receives, t.amountOut).value;
    SwapLocked(w, b0, t.buyer, t.seller, t.assetIn, t.assetOut, receives, t.amountOut);
    var b2 := Credit(w, b1, PLATFORM, t.assetIn, t.platformFee);
    CreditLocked(w, b1, PLATFORM, t.assetIn, t.platformFee);
    CreditLocked(w, b2, t.solver, t.assetIn, t.solverFee);
    SameLockedChain(b, b0, b1);
    SameLockedChain(b, b1, b2);
    SameLockedChain(b, b2, TradeBalances(w, b, t).value);
  }

  lemma SettleTradeLocks(db: Db, o: Origin, id: Id)
    requires LockInv(db, o)
    ensures LockInv(SettleTrade(Exact, db, id).db, o)
  {
    if id in db.trades && !db.trades[id].settled && TradeBalances(Exact, db.balances, db.trades[id]).Some? {
      TradeLocked(Exact, db.balances, db.trades[id]);
      SameBookKeeps(db, SettleTrade(Exact, db, id).db, o);
    }
  }

  lemma SettleCallLocks(db: Db, o: Origin, c: SettleCall)
    requires LockInv(db, o) && SettleContract(db, o, c)
    ensures LockInv(ApplySettle(Exact, db, c).db, o)
  {
    hide LockInv, SettleFill, SettleEach, SettledQty, SettleTrade;
    match c {
      case EventCall(f, i, buyer, seller, tokenIn, tokenOut, rate) =>
        if tokenIn.Known? && tokenOut.Known? {
          SettleFillLocks(db, o, f, i, buyer, seller, tokenIn.asset, tokenOut.asset, rate);
          UpdateStatusLocks(SettleFill(Exact, db, f, buyer, seller, tokenIn.asset, tokenOut.asset, rate).db, o, i);
        }
      case SettleIntentCall(i, rows, buyer, seller, assetIn, assetOut, rate) =>
        SettleEachLocks(db, o, rows, i, buyer, seller, assetIn, assetOut, rate);
        var db' := SettleEach(Exact, db, rows, buyer, seller, assetIn, assetOut, rate);
        if i in db'.intents { StatusLocks(db', o, i, ComputeStatus(db', i)); }
      case NewTradeCall(t) => SameBookKeeps(db, CreateTrade(db, t).db, o);
      case SettleTradeCall(id) => SettleTradeLocks(db, o, id);
    }
  }

  // ---------------------------------------------------------------
  // Runs
  // ---------------------------------------------------------------

  /** Every call of the run meets its contract in the state it finds. */
  ghost predicate Obeys(x: World, steps: seq<Step>) {
    steps == [] || (
      && Obeys(x, steps[..|steps| - 1])
      && var y := Run(Exact, x, steps[..|steps| - 1]);
         Contract(y.db, y.h.origin, steps[|steps| - 1]))
  }

  lemma StepLocks(x: World, s: Step)
    requires LockInv(x.db, x.h.origin) && Contract(x.db, x.h.origin, s)
    ensures LockInv(Next(Exact, x, s).db, Next(Exact, x, s).h.origin)
  {
    match s {
      case OnBalance(c) => BalanceCallLocks(x.db, x.h.origin, c);
      case OnIntent(c) => IntentCallLocks(x.db, x.h.origin, c);
      case OnAuction(c) => AuctionCallLocks(x.db, x.h.origin, c);
      case OnSettle(c) => SettleCallLocks(x.db, x.h.origin, c);
    }
  }

  /** Lock accounting holds after every run. */
  lemma {:induction false} LockAccounting(solverAccounts: map<string, Account>, steps: seq<Step>)
    requires Obeys(Start(solverAccounts), steps)
    ensures var x := Run(Exact, Start(solverAccounts), steps); LockInv(x.db, x.h.origin)
  {
    if steps == [] {
      var x := Start(solverAccounts);
      assert forall acct, asset :: Row(x.db.balances, acct, asset).locked == 0 == LockSum(x.db, x.h.origin, acct, asset);
    } else {
      var init := steps[..|steps| - 1];
      LockAccounting(solverAccounts, init);
      StepLocks(Run(Exact, Start(solverAccounts), init), steps[|steps| - 1]);
    }
  }
}
