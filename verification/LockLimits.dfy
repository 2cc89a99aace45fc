/** Exactly when lock accounting survives a call whose contract is dropped, what is lost when it does not, and
    exactly when a settlement commits. */
module LockLimits {
  import opened Prelude
  import opened Sums
  import opened Auction
  import opened Accounting
  import opened Exchange
  import opened Runs
  import opened Locks

  // ---------------------------------------------------------------
  // Fills that can still be paid
  // ---------------------------------------------------------------

  /** What the unsettled fills of an intent will take. */
  ghost function Outstanding(fills: map<Id, Fill>, i: Id): int { FilledQty(fills, i) - SettledQty(fills, i) }

  /** What all other unreleased intents of the same owner and asset need. */
  ghost function Others(db: Db, o: Origin, i: Id): int
    requires i in db.intents && db.intents[i].tokenIn.Known?
  {
    SumMap(db.intents - {i}, LockWeight(o, db.fills, OwnerOf(o, i), db.intents[i].tokenIn.asset))
  }

  ghost function OwnerRow(db: Db, o: Origin, i: Id): Balance
    requires i in db.intents && db.intents[i].tokenIn.Known?
  {
    Row(db.balances, OwnerOf(o, i), db.intents[i].tokenIn.asset)
  }

  /** The owner's locked balance pays all unsettled fills of the intent and leaves what the others need. */
  ghost predicate Covered(db: Db, o: Origin, i: Id)
    requires i in db.intents && db.intents[i].tokenIn.Known?
  {
    Outstanding(db.fills, i) + Others(db, o, i) <= OwnerRow(db, o, i).locked
  }

  /** Settle the charges of `rows` one after the other. */
  function UnlockAll(b: Balances, acct: Account, asset: Asset, fills: map<Id, Fill>, rows: seq<Id>): Option<Balances>
    requires forall r :: r in rows ==> r in fills
    decreases |rows|
  {
    if rows == [] then Some(b)
    else
      match UnlockAndDebit(Exact, b, acct, asset, fills[rows[0]].filledQty)
      case None => None
      case Some(b') => UnlockAll(b', acct, asset, fills, rows[1..])
  }

  function RowsQty(fills: map<Id, Fill>, rows: seq<Id>): int
    requires forall r :: r in rows ==> r in fills
  {
    if rows == [] then 0 else fills[rows[0]].filledQty + RowsQty(fills, rows[1..])
  }

  /** `rows` lists the unsettled fills of `i`, each once. */
  ghost predicate Lists(fills: map<Id, Fill>, i: Id, rows: seq<Id>) {
    && (forall f :: f in rows <==> f in fills && fills[f].intent == i && !fills[f].settled)
    && (forall j, k :: 0 <= j < k < |rows| ==> rows[j] != rows[k])
  }

  lemma {:induction false} ListedQty(fills: map<Id, Fill>, i: Id, rows: seq<Id>)
    requires Lists(fills, i, rows)
    ensures RowsQty(fills, rows) == Outstanding(fills, i)
    decreases |rows|
  {
    if rows == [] {
      assert forall f :: f in fills && fills[f].intent == i && !fills[f].settled ==> f in rows;
      SumAgree(fills, fills, SettledOf(i), FilledOf(i));
    } else {
      var f := rows[0];
      var fills' := fills[f := fills[f].(settled := true)];
      assert f in rows;
      forall g ensures g in rows[1..] <==> g in fills' && fills'[g].intent == i && !fills'[g].settled {
        assert g in rows <==> g == f || g in rows[1..];
      }
      MarkSettled(fills, f, i);
      SameQty(fills, fills', rows[1..]);
      ListedQty(fills', i, rows[1..]);
    }
  }

  lemma {:induction false} SameQty(fills: map<Id, Fill>, fills': map<Id, Fill>, rows: seq<Id>)
    requires forall r :: r in rows ==> r in fills && r in fills' && fills[r].filledQty == fills'[r].filledQty
    ensures RowsQty(fills, rows) == RowsQty(fills', rows)
  {
    if rows != [] { SameQty(fills, fills', rows[1..]); }
  }

  lemma {:induction false} UnlockAllIff(b: Balances, acct: Account, asset: Asset, fills: map<Id, Fill>, rows: seq<Id>)
    requires forall r :: r in rows ==> r in fills && fills[r].filledQty > 0
    ensures RowsQty(fills, rows) >= 0 && (rows != [] ==> RowsQty(fills, rows) > 0)
    ensures var r := UnlockAll(b, acct, asset, fills, rows);
            && (r.Some? <==> rows == [] || RowsQty(fills, rows) <= Row(b, acct, asset).locked)
            && (r.Some? ==> Row(r.value, acct, asset).locked == Row(b, acct, asset).locked - RowsQty(fills, rows))
    decreases |rows|
  {
    if rows != [] {
      UnlockAllIff(b, acct, asset, fills, rows[1..]);
      var r := UnlockAndDebit(Exact, b, acct, asset, fills[rows[0]].filledQty);
      if r.Some? { UnlockAllIff(r.value, acct, asset, fills, rows[1..]); }
    }
  }

  /** Covered says what it is meant to say: in any order, every unsettled fill of the intent can be unlocked, and
      afterwards the others still find their locks. */
  lemma CoveredMeans(db: Db, o: Origin, i: Id, rows: seq<Id>)
    requires i in db.intents && db.intents[i].tokenIn.Known? && Others(db, o, i) >= 0
    requires Lists(db.fills, i, rows) && forall f :: f in db.fills ==> db.fills[f].filledQty > 0
    ensures var owner, asset := OwnerOf(o, i), db.intents[i].tokenIn.asset;
            var r := UnlockAll(db.balances, owner, asset, db.fills, rows);
            Covered(db, o, i) <==> r.Some? && Others(db, o, i) <= Row(r.value, owner, asset).locked
  {
    hide Others;
    ListedQty(db.fills, i, rows);
    UnlockAllIff(db.balances, OwnerOf(o, i), db.intents[i].tokenIn.asset, db.fills, rows);
    hide UnlockAll, RowsQty, Lists, Row;
  }

  /** Lock accounting holds, and the fills of `i` are paid by its own lock. */
  ghost predicate Kept(db: Db, o: Origin, i: Id)
    requires i in db.intents && db.intents[i].tokenIn.Known?
  {
    LocksMatch(db, o) && Covered(db, o, i)
  }

  // ---------------------------------------------------------------
  // One intent against the rest
  // ---------------------------------------------------------------

  lemma OthersSplit(db: Db, o: Origin, i: Id)
    requires Shape(db, o) && i in db.intents
    ensures db.intents[i].tokenIn.Known?
    ensures Others(db, o, i) >= 0
    ensures LockSum(db, o, OwnerOf(o, i), db.intents[i].tokenIn.asset)
            == Weight(db, o, i, OwnerOf(o, i), db.intents[i].tokenIn.asset) + Others(db, o, i)
    ensures Weight(db, o, i, OwnerOf(o, i), db.intents[i].tokenIn.asset)
            == if i in o.released then 0 else db.intents[i].amountIn - SettledQty(db.fills, i)
  {
    hide SumMap, FilledQty, SettledQty;
    var owner, asset := OwnerOf(o, i), db.intents[i].tokenIn.asset;
    OwnedRow(db, o, i);
    WeightsNonNegative(db, o, owner, asset);
    SumRemove(db.intents, LockWeight(o, db.fills, owner, asset), i);
    SumNonNegative(db.intents - {i}, LockWeight(o, db.fills, owner, asset));
  }

  /** In a state that keeps accounting: the locked row is the intent's own lock and what the others need; a released
      intent has no fills; and without a row there is nothing to lose. */
  lemma LockedSplit(db: Db, o: Origin, i: Id)
    requires LockInv(db, o) && i in db.intents
    ensures db.intents[i].tokenIn.Known? && i in o.owner && 0 <= db.intents[i].amountIn
    ensures Others(db, o, i) >= 0
    ensures OwnerRow(db, o, i).locked
            == Others(db, o, i) + if i in o.released then 0 else db.intents[i].amountIn - SettledQty(db.fills, i)
    ensures 0 <= SettledQty(db.fills, i) <= FilledQty(db.fills, i) <= db.intents[i].amountIn
    ensures i in o.released ==> FilledQty(db.fills, i) == 0
    ensures Row(db.balances, OwnerOf(o, i), db.intents[i].tokenIn.asset).locked
            == LockSum(db, o, OwnerOf(o, i), db.intents[i].tokenIn.asset)
  {
    hide SumMap, FilledQty, SettledQty, Others;
    OthersSplit(db, o, i);
    OwnedRow(db, o, i);
    assert forall f :: f in db.fills ==> FillRow(db, o, f);
    SettledWithinFilled(db.fills, i);
    if i in o.released {
      assert !HasFills(db.fills, i);
      NoFillsNoSum(db.fills, i);
    }
  }

  /** What a change of intent `i` alone does to its owner's sum, the others' need and every other sum. */
  lemma OnlyIntentSums(db: Db, db': Db, o: Origin, o': Origin, i: Id, x: Account, a: Asset)
    requires OnlyIntent(db, db', o, o', i)
    ensures LockSum(db', o', x, a) == LockSum(db, o, x, a) - Weight(db, o, i, x, a) + Weight(db', o', i, x, a)
  {
    hide SumMap, SettledQty;
    SumChange(db.intents, db'.intents, LockWeight(o, db.fills, x, a), LockWeight(o', db.fills, x, a), i);
  }

  lemma SameOthers(db: Db, db': Db, o: Origin, o': Origin, i: Id)
    requires i in db.intents && i in db'.intents && db'.intents[i].tokenIn == db.intents[i].tokenIn
    requires db.intents[i].tokenIn.Known?
    requires OwnerOf(o', i) == OwnerOf(o, i)
    requires OnlyIntent(db, db', o, o', i)
    ensures Others(db', o', i) == Others(db, o, i)
  {
    hide SumMap, SettledQty;
    var owner, asset := OwnerOf(o, i), db.intents[i].tokenIn.asset;
    var rest, rest' := db.intents - {i}, db'.intents - {i};
    assert rest.Keys == rest'.Keys;
    SumAgree(rest, rest', LockWeight(o, db.fills, owner, asset), LockWeight(o', db.fills, owner, asset));
  }

  /** Accounting holds after a change of intent `i` exactly when its owner's row moved as much as its lock. */
  lemma MatchesIff(db: Db, db': Db, o: Origin, o': Origin, i: Id, acct: Account, asset: Asset, delta: int)
    requires LocksMatch(db, o) && OnlyIntent(db, db', o, o', i)
    requires LocksFor(db.intents, o, i, acct, asset) && LocksFor(db'.intents, o', i, acct, asset)
    requires LockedMoves(db.balances, db'.balances, acct, asset, delta)
    ensures LocksMatch(db', o') <==> delta == Weight(db', o', i, acct, asset) - Weight(db, o, i, acct, asset)
  {
    hide SumMap, SettledQty, Row, LockSum, OnlyIntent;
    OnlyIntentSums(db, db', o, o', i, acct, asset);
    assert Row(db.balances, acct, asset).locked == LockSum(db, o, acct, asset);
    if delta == Weight(db', o', i, acct, asset) - Weight(db, o, i, acct, asset) {
      OneIntentChanges(db, db', o, o', i, acct, asset);
    } else {
      assert Row(db'.balances, acct, asset).locked != LockSum(db', o', acct, asset);
    }
  }

  /** What a statement on the locked column really adds: nothing where there is no row. */
  function Moved(b: Balances, acct: Account, asset: Asset, amount: int): int { if (acct, asset) in b then amount else 0 }

  lemma ShiftMoves(b: Balances, acct: Account, asset: Asset, dAvailable: int, dLocked: int)
    ensures var r := Shift(Exact, b, acct, asset, dAvailable, dLocked);
            r.Some? && LockedMoves(b, r.value, acct, asset, Moved(b, acct, asset, dLocked))
  {
    if (acct, asset) in b { ShiftRows(Exact, b, acct, asset, dAvailable, dLocked); }
  }

  // ---------------------------------------------------------------
  // Amounts that do not survive the cast
  // ---------------------------------------------------------------

  /** `create_intent` looks at the amount only through the minimum order size. Accounting with the new intent in it
      holds exactly when the amount fits in i64. */
  lemma CreateKeptIff(db: Db, o: Origin, acct: Account, tokenIn: Token, tokenOut: Token, amountIn: nat, minAmountOut: nat,
                      riskOk: bool, minOrderSize: int)
    requires LockInv(db, o) && amountIn < 0x1_0000_0000_0000_0000
    requires CreateIntent(Exact, db, acct, tokenIn, tokenOut, amountIn, minAmountOut, riskOk, minOrderSize).outcome.Done?
    ensures var db' := CreateIntent(Exact, db, acct, tokenIn, tokenOut, amountIn, minAmountOut, riskOk, minOrderSize).db;
            && db.nextId in db'.intents && db'.intents[db.nextId].tokenIn.Known?
            && (Kept(db', o.(owner := o.owner[db.nextId := acct]), db.nextId) <==> amountIn <= I64_MAX)
  {
    var db' := CreateIntent(Exact, db, acct, tokenIn, tokenOut, amountIn, minAmountOut, riskOk, minOrderSize).db;
    hide LockedMoves, Shape, LocksMatch, Shift;
    ShiftMoves(db.balances, acct, tokenIn.asset, -AsI64(amountIn), AsI64(amountIn));
    NewAmount(db, db', o, acct, db'.intents[db.nextId], AsI64(amountIn));
  }

  lemma NewRowOnly(db: Db, db': Db, o: Origin, acct: Account, t: Intent)
    requires Shape(db, o)
    requires db' == db.(intents := db.intents[db.nextId := t], balances := db'.balances, nextId := db.nextId + 1)
    ensures db.nextId !in db.intents && db.nextId !in o.released && db.nextId !in o.owner
    ensures OnlyIntent(db, db', o, o.(owner := o.owner[db.nextId := acct]), db.nextId)
  {
    hide FilledQty, SumMap;
  }

  /** A new intent locks `amount` where its owner has a row. */
  lemma NewAmount(db: Db, db': Db, o: Origin, acct: Account, t: Intent, amount: int)
    requires LockInv(db, o) && t.tokenIn.Known? && t.amountIn == amount
    requires db' == db.(intents := db.intents[db.nextId := t], balances := db'.balances, nextId := db.nextId + 1)
    requires LockedMoves(db.balances, db'.balances, acct, t.tokenIn.asset, Moved(db.balances, acct, t.tokenIn.asset, amount))
    requires (acct, t.tokenIn.asset) !in db.balances ==> amount <= 0
    ensures Kept(db', o.(owner := o.owner[db.nextId := acct]), db.nextId) <==> 0 <= amount
  {
    var i, o', asset := db.nextId, o.(owner := o.owner[db.nextId := acct]), t.tokenIn.asset;
    NewRowOnly(db, db', o, acct, t);
    hide SumMap, SettledQty, FilledQty, LocksMatch, LockedMoves, Others, OnlyIntent;
    NoFillsYet(db, o, i);
    hide Shape;
    var moved := Moved(db.balances, acct, asset, amount);
    MatchesIff(db, db', o, o', i, acct, asset, moved);
    assert Weight(db', o', i, acct, asset) == amount && Weight(db, o, i, acct, asset) == 0;
    NewCoveredIff(db, db', o, o', i, acct, asset, moved);
    hide Weight, Covered;
  }

  lemma NewCoveredIff(db: Db, db': Db, o: Origin, o': Origin, i: Id, acct: Account, asset: Asset, moved: int)
    requires LocksMatch(db, o) && OnlyIntent(db, db', o, o', i) && i !in db.intents && i in db'.intents
    requires OwnerOf(o', i) == acct && db'.intents[i].tokenIn == Known(asset)
    requires LockedMoves(db.balances, db'.balances, acct, asset, moved)
    requires FilledQty(db.fills, i) == 0 == SettledQty(db.fills, i)
    ensures Covered(db', o', i) <==> 0 <= moved
  {
    NewIntentOthers(db, db', o, o', i, acct, asset);
    RowMatches(db, o, acct, asset);
    MovedRow(db.balances, db'.balances, acct, asset, moved);
    assert db'.fills == db.fills;
    hide SumMap, SettledQty, FilledQty, LocksMatch, LockedMoves, Others, OnlyIntent, Row, LockSum;
  }

  lemma MovedRow(b: Balances, b': Balances, acct: Account, asset: Asset, delta: int)
    requires LockedMoves(b, b', acct, asset, delta)
    ensures Row(b', acct, asset).locked == Row(b, acct, asset).locked + delta
  {
  }

  lemma RowMatches(db: Db, o: Origin, acct: Account, asset: Asset)
    requires LocksMatch(db, o)
    ensures Row(db.balances, acct, asset).locked == LockSum(db, o, acct, asset)
  {
  }

  lemma NoFillsYet(db: Db, o: Origin, i: Id)
    requires Shape(db, o) && i !in db.intents
    ensures FilledQty(db.fills, i) == 0 && SettledQty(db.fills, i) == 0
  {
    assert forall f :: f in db.fills ==> FillRow(db, o, f);
    NoFillsNoSum(db.fills, i);
  }

  lemma NewIntentOthers(db: Db, db': Db, o: Origin, o': Origin, i: Id, acct: Account, asset: Asset)
    requires OnlyIntent(db, db', o, o', i) && i !in db.intents && i in db'.intents
    requires OwnerOf(o', i) == acct && db'.intents[i].tokenIn == Known(asset)
    ensures Others(db', o', i) == LockSum(db, o, acct, asset)
  {
    hide SumMap, SettledQty;
    var rest' := db'.intents - {i};
    assert rest'.Keys == db.intents.Keys;
    SumAgree(db.intents, rest', LockWeight(o, db.fills, acct, asset), LockWeight(o', db.fills, acct, asset));
  }

  /** `amend_intent` runs no risk check and `begin_auction` can have made any intent amendable again. From a state that
      keeps accounting, whatever status was written since, a committed amendment keeps it and leaves every fill of the
      intent paid by its own lock exactly when the new amount, as the cast reads it, is not below what was filled. */
  lemma AmendKeptIff(base: Db, o: Origin, i: Id, status: IntentStatus, newAmountIn: nat, newMinAmountOut: Option<nat>,
                     newLimitPrice: Option<int>)
    requires LockInv(base, o) && i in base.intents && i !in o.released && newAmountIn < 0x1_0000_0000_0000_0000
    requires AmendIntent(Exact, SetStatus(base, i, status), i, OwnerOf(o, i), Some(newAmountIn), newMinAmountOut, newLimitPrice).outcome.Done?
    ensures var db' := AmendIntent(Exact, SetStatus(base, i, status), i, OwnerOf(o, i), Some(newAmountIn), newMinAmountOut, newLimitPrice).db;
            && i in db'.intents && db'.intents[i].tokenIn.Known?
            && (Kept(db', o, i) <==> FilledQty(base.fills, i) <= AsI64(newAmountIn))
  {
    var db' := AmendIntent(Exact, SetStatus(base, i, status), i, OwnerOf(o, i), Some(newAmountIn), newMinAmountOut, newLimitPrice).db;
    CommittedAmend(SetStatus(base, i, status), i, OwnerOf(o, i), newAmountIn, newMinAmountOut, newLimitPrice);
    assert db'.intents == base.intents[i := db'.intents[i]];
    hide AmendIntent;
    ChangedAmount(base, db', o, i, AsI64(newAmountIn));
  }

  lemma CommittedAmend(db: Db, i: Id, acct: Account, newAmountIn: nat, newMinAmountOut: Option<nat>, newLimitPrice: Option<int>)
    requires AmendIntent(Exact, db, i, acct, Some(newAmountIn), newMinAmountOut, newLimitPrice).outcome.Done?
    ensures i in db.intents && db.intents[i].tokenIn.Known?
    ensures var db' := AmendIntent(Exact, db, i, acct, Some(newAmountIn), newMinAmountOut, newLimitPrice).db;
            var key := (acct, db.intents[i].tokenIn.asset);
            var diff := AsI64(newAmountIn) - db.intents[i].amountIn;
            && i in db'.intents && db' == db.(intents := db.intents[i := db'.intents[i]], balances := db'.balances)
            && db'.intents[i].tokenIn == db.intents[i].tokenIn && db'.intents[i].amountIn == AsI64(newAmountIn)
            && LockedMoves(db.balances, db'.balances, key.0, key.1, Moved(db.balances, key.0, key.1, diff))
            && (key !in db.balances ==> diff <= 0)
  {
    hide LockedMoves, Shift;
    var diff := AsI64(newAmountIn) - db.intents[i].amountIn;
    ShiftMoves(db.balances, acct, db.intents[i].tokenIn.asset, -diff, diff);
  }

  /** The amount of intent `i` becomes `amount`, and its owner's lock moves as much where there is a row. */
  lemma ChangedAmount(db: Db, db': Db, o: Origin, i: Id, amount: int)
    requires LockInv(db, o) && i in db.intents && i in db'.intents && i !in o.released && db.intents[i].tokenIn.Known?
    requires db' == db.(intents := db.intents[i := db'.intents[i]], balances := db'.balances)
    requires db'.intents[i].tokenIn == db.intents[i].tokenIn && db'.intents[i].amountIn == amount
    requires var acct, asset := OwnerOf(o, i), db.intents[i].tokenIn.asset;
             && LockedMoves(db.balances, db'.balances, acct, asset, Moved(db.balances, acct, asset, amount - db.intents[i].amountIn))
             && ((acct, asset) !in db.balances ==> amount <= db.intents[i].amountIn)
    ensures Kept(db', o, i) <==> FilledQty(db.fills, i) <= amount
  {
    hide SumMap, SettledQty, FilledQty, LocksMatch, LockedMoves, Others, OnlyIntent, Shape;
    var acct, asset := OwnerOf(o, i), db.intents[i].tokenIn.asset;
    var diff := amount - db.intents[i].amountIn;
    LockedSplit(db, o, i);
    OneRowOnly(db, o, i, db'.intents[i], db'.balances, o.released);
    MatchesIff(db, db', o, o, i, acct, asset, Moved(db.balances, acct, asset, diff));
    SameOthers(db, db', o, o, i);
    MovedRow(db.balances, db'.balances, acct, asset, Moved(db.balances, acct, asset, diff));
  }

  /** The usual case, an intent still open for amendment: accounting survives exactly when the new amount fits in i64. */
  lemma AmendCastIff(db: Db, o: Origin, i: Id, newAmountIn: nat, newMinAmountOut: Option<nat>, newLimitPrice: Option<int>)
    requires LockInv(db, o) && i in db.intents && newAmountIn < 0x1_0000_0000_0000_0000
    requires AmendIntent(Exact, db, i, OwnerOf(o, i), Some(newAmountIn), newMinAmountOut, newLimitPrice).outcome.Done?
    ensures var db' := AmendIntent(Exact, db, i, OwnerOf(o, i), Some(newAmountIn), newMinAmountOut, newLimitPrice).db;
            && i in db'.intents && db'.intents[i].tokenIn.Known?
            && (Kept(db', o, i) <==> newAmountIn <= I64_MAX)
  {
    hide SumMap, SettledQty, FilledQty, Kept;
    OwnedRow(db, o, i);
    AmendableUnfilled(db, o, i);
    assert SetStatus(db, i, db.intents[i].status) == db by { SameStatusAgain(db, i); }
    AmendKeptIff(db, o, i, db.intents[i].status, newAmountIn, newMinAmountOut, newLimitPrice);
  }

  lemma SameStatusAgain(db: Db, i: Id)
    requires i in db.intents
    ensures SetStatus(db, i, db.intents[i].status) == db
  {
    assert db.intents[i := db.intents[i].(status := db.intents[i].status)] == db.intents;
  }

  // ---------------------------------------------------------------
  // Auctions that close again, or too late
  // ---------------------------------------------------------------

  /** Nothing stops an auction from closing twice, or after its intent gave the lock back. The lock equation survives
      either way, since new fills are unsettled; but they can be paid from the intent's own lock exactly when the
      order still has room for them, and a released order has none. */
  lemma CloseKeptIff(db: Db, o: Origin, i: Id)
    requires LockInv(db, o) && i in db.intents
    ensures var db', o' := CloseAuction(db, i).db, o.(closed := o.closed + {i});
            && LocksMatch(db', o') && db'.intents[i].tokenIn.Known?
            && (Kept(db', o', i) <==>
                  FilledQty(db.fills, i) + Min(db.intents[i].amountIn, PositiveNets(AcceptedBids(db, i)))
                  <= if i in o.released then 0 else db.intents[i].amountIn)
  {
    hide SumMap, SettledQty, FilledQty, LocksMatch, Others, GenerateFills, AcceptedBids, InsertFills, PositiveNets, TotalFilled;
    var drafts, marked, o' := CloseDrafts(db, i), SetStatus(db, i, CloseStatus(db, i)), o.(closed := o.closed + {i});
    LockedSplit(db, o, i);
    FillsSum(db.intents[i].amountIn, AcceptedBids(db, i));
    forall j ensures FilledQty(WithFills(marked, i, drafts).fills, j) == FilledQty(db.fills, j) + (if j == i then TotalFilled(drafts) else 0)
             ensures SettledQty(WithFills(marked, i, drafts).fills, j) == SettledQty(db.fills, j) {
      InsertSums(db.fills, i, drafts, db.nextId, j);
    }
    MarkedMatches(db, o, i, CloseStatus(db, i));
    UnsettledFillsKeepLocks(marked, o, o', InsertFills(db.fills, i, drafts, db.nextId), db.nextId + |drafts|);
    CloseOthers(db, marked, WithFills(marked, i, drafts), o, o', i);
  }

  /** A close of a released intent inserts fills, each of which breaks accounting when it settles, exactly when the order
      is not empty and some accepted bid is worth something. */
  lemma LateCloseFillsIff(db: Db, o: Origin, i: Id)
    requires LockInv(db, o) && i in db.intents && i in o.released
    ensures HasFills(CloseAuction(db, i).db.fills, i)
            <==> 0 < db.intents[i].amountIn && 0 < PositiveNets(AcceptedBids(db, i))
  {
    hide SumMap, LocksMatch, AcceptedBids, InsertFills, PositiveNets, GenerateFills;
    var drafts, fills' := CloseDrafts(db, i), CloseAuction(db, i).db.fills;
    LockedSplit(db, o, i);
    assert forall f :: f in db.fills ==> FillRow(db, o, f);
    FillsSum(db.intents[i].amountIn, AcceptedBids(db, i));
    FillsWhole(db.intents[i].amountIn, AcceptedBids(db, i));
    InsertSums(db.fills, i, drafts, db.nextId, i);
    InsertRows(db.fills, i, drafts, db.nextId);
    hide FilledQty, SettledQty, Shape;
    if HasFills(fills', i) {
      var f :| f in fills' && fills'[f].intent == i;
      assert fills'[f].filledQty > 0;
      TakesSomething(fills', f, i);
    } else {
      NoFillsNoSum(fills', i);
    }
  }

  lemma TakesSomething(fills: map<Id, Fill>, f: Id, i: Id)
    requires f in fills && fills[f].intent == i && forall g :: g in fills ==> fills[g].filledQty > 0
    ensures FilledQty(fills, i) > 0
  {
    SumAtLeast(fills, FilledOf(i), f);
  }

  lemma MarkedMatches(db: Db, o: Origin, i: Id, status: IntentStatus)
    requires LocksMatch(db, o) && i in db.intents && i in o.owner && db.intents[i].tokenIn.Known?
    ensures LocksMatch(SetStatus(db, i, status), o)
  {
    hide SumMap, SettledQty, LocksMatch, OnlyIntent, LockedMoves;
    var t := db.intents[i].(status := status);
    OneRowOnly(db, o, i, t, db.balances, o.released);
    NothingMoves(db.balances, OwnerOf(o, i), t.tokenIn.asset);
    OneIntentChanges(db, SetStatus(db, i, status), o, o, i, OwnerOf(o, i), t.tokenIn.asset);
  }

  lemma CloseOthers(db: Db, marked: Db, db': Db, o: Origin, o': Origin, i: Id)
    requires i in db.intents && db.intents[i].tokenIn.Known? && marked == SetStatus(db, i, CloseStatus(db, i))
    requires db'.intents == marked.intents && o' == o.(closed := o.closed + {i})
    requires forall j :: SettledQty(db'.fills, j) == SettledQty(db.fills, j)
    ensures Others(db', o', i) == Others(db, o, i)
  {
    hide SumMap, SettledQty;
    var owner, asset := OwnerOf(o, i), db.intents[i].tokenIn.asset;
    var rest, rest' := db.intents - {i}, db'.intents - {i};
    assert rest.Keys == rest'.Keys;
    SumAgree(rest, rest', LockWeight(o, db.fills, owner, asset), LockWeight(o', db'.fills, owner, asset));
  }

  // ---------------------------------------------------------------
  // Releases without a guard
  // ---------------------------------------------------------------

  /** `cancel_intent` and `fail_intent` look at no status and always commit. Where the owner has a row, the lock
      equation survives exactly when nothing of the intent has settled or, the second time, when there is nothing to
      give back; and accounting with its fills paid survives exactly when it has none. Where the owner has no row there
      was nothing to lose. */
  lemma ReleaseKeptIff(db: Db, o: Origin, i: Id, status: IntentStatus)
    requires LockInv(db, o) && i in db.intents
    ensures db.intents[i].tokenIn.Known?
    ensures var r, o' := ReleaseIntent(Exact, db, i, OwnerOf(o, i), status), o.(released := o.released + {i});
            var noRow := (OwnerOf(o, i), db.intents[i].tokenIn.asset) !in db.balances;
            && r.outcome.Done? && i in r.db.intents && r.db.intents[i].tokenIn.Known?
            && (LocksMatch(r.db, o') <==> noRow || if i in o.released then db.intents[i].amountIn == 0 else SettledQty(db.fills, i) == 0)
            && (Kept(r.db, o', i) <==> noRow || if i in o.released then db.intents[i].amountIn == 0 else FilledQty(db.fills, i) == 0)
  {
    hide SumMap, SettledQty, FilledQty, LocksMatch, LockedMoves, Others, OnlyIntent, Shape, Shift;
    LockedSplit(db, o, i);
    var t, acct := db.intents[i], OwnerOf(o, i);
    ShiftMoves(db.balances, acct, t.tokenIn.asset, t.amountIn, -t.amountIn);
    var r, o' := ReleaseIntent(Exact, db, i, acct, status), o.(released := o.released + {i});
    var t' := t.(status := status);
    assert r.db == db.(intents := db.intents[i := t'], balances := r.db.balances);
    OneRowOnly(db, o, i, t', r.db.balances, o'.released);
    MatchesIff(db, r.db, o, o', i, acct, t.tokenIn.asset, Moved(db.balances, acct, t.tokenIn.asset, -t.amountIn));
    SameOthers(db, r.db, o, o', i);
    MovedRow(db.balances, r.db.balances, acct, t.tokenIn.asset, Moved(db.balances, acct, t.tokenIn.asset, -t.amountIn));
  }

  /** Expiry gives the lock back only to the account it finds: on an open intent accounting survives exactly when that
      is the owner, or there was nothing to give back. */
  lemma ExpireMatchIff(db: Db, o: Origin, i: Id, found: Option<Account>)
    requires LockInv(db, o) && i in db.intents && Amendable(db.intents[i].status)
    ensures var r := ExpireIntent(Exact, db, i, found);
            && r.outcome.Done?
            && (LocksMatch(r.db, o.(released := o.released + {i})) <==> found == Some(OwnerOf(o, i)) || db.intents[i].amountIn == 0)
  {
    hide SumMap, SettledQty, FilledQty, LocksMatch, LockedMoves, Shape, OnlyIntent, Shift;
    OwnedRow(db, o, i);
    AmendableUnfilled(db, o, i);
    var t, r, o' := db.intents[i], ExpireIntent(Exact, db, i, found), o.(released := o.released + {i});
    if found == Some(OwnerOf(o, i)) {
      ShiftMoves(db.balances, OwnerOf(o, i), t.tokenIn.asset, t.amountIn, -t.amountIn);
      ExpireLocks(db, o, i, found);
    } else {
      var x := if found.Some? then found.value else PLATFORM;
      NothingMoves(db.balances, x, t.tokenIn.asset);
      ShiftMoves(db.balances, x, t.tokenIn.asset, t.amountIn, -t.amountIn);
      assert r.db == db.(intents := db.intents[i := t.(status := Expired)], balances := r.db.balances);
      OneRowOnly(db, o, i, t.(status := Expired), r.db.balances, o'.released);
      var d := if r.db.balances == db.balances then 0 else Moved(db.balances, x, t.tokenIn.asset, -t.amountIn);
      if found.None? { NothingMoves(db.balances, OwnerOf(o, i), t.tokenIn.asset); }
      UnpaidRelease(db, r.db, o, o', i, if found.None? then OwnerOf(o, i) else x, d);
    }
  }

  /** An intent counted as released although its owner's row did not move. */
  lemma UnpaidRelease(db: Db, db': Db, o: Origin, o': Origin, i: Id, x: Account, d: int)
    requires LocksMatch(db, o) && i in db.intents && i in db'.intents && i !in o.released && SettledQty(db.fills, i) == 0
    requires OnlyIntent(db, db', o, o', i) && i in o'.released && i in o.owner && i in o'.owner
    requires OwnerOf(o', i) == OwnerOf(o, i) && db.intents[i].tokenIn.Known? && db'.intents[i].tokenIn == db.intents[i].tokenIn
    requires LockedMoves(db.balances, db'.balances, x, db.intents[i].tokenIn.asset, d)
    requires (x != OwnerOf(o, i) || d == 0) && (db.intents[i].amountIn == 0 ==> d == 0)
    ensures LocksMatch(db', o') <==> db.intents[i].amountIn == 0
  {
    var acct, asset := OwnerOf(o, i), db.intents[i].tokenIn.asset;
    assert Row(db'.balances, acct, asset).locked == Row(db.balances, acct, asset).locked;
    if db.intents[i].amountIn == 0 {
      assert LockedMoves(db.balances, db'.balances, acct, asset, 0);
      hide SumMap, SettledQty, LocksMatch, OnlyIntent, LockedMoves;
      MatchesIff(db, db', o, o', i, acct, asset, 0);
    } else {
      hide SumMap, SettledQty, LocksMatch, OnlyIntent, LockedMoves, LockSum;
      OnlyIntentSums(db, db', o, o', i, acct, asset);
      RowMatches(db, o, acct, asset);
      if LocksMatch(db', o') { RowMatches(db', o', acct, asset); }
    }
  }

  lemma ExpiredRow(db: Db, i: Id, acct: Account)
    requires i in db.intents && Amendable(db.intents[i].status) && db.intents[i].tokenIn.Known?
    ensures var r, t := ExpireIntent(Exact, db, i, Some(acct)), db.intents[i];
            var asset := t.tokenIn.asset;
            && r.outcome.Done? && r.db == db.(intents := db.intents[i := t.(status := Expired)], balances := r.db.balances)
            && LockedMoves(db.balances, r.db.balances, acct, asset,
                           if Row(db.balances, acct, asset).locked < t.amountIn then 0 else Moved(db.balances, acct, asset, -t.amountIn))
  {
    hide LockedMoves, Shift, Row;
    var t := db.intents[i];
    ShiftMoves(db.balances, acct, t.tokenIn.asset, t.amountIn, -t.amountIn);
    NothingMoves(db.balances, acct, t.tokenIn.asset);
  }

  /** `begin_auction` can also make a closed or a released intent open to expiry again. Where the guard on the locked
      balance stops the statement, the intent counts as released with nothing given back. */
  lemma ReopenedExpireIff(base: Db, o: Origin, i: Id, status: IntentStatus)
    requires LockInv(base, o) && i in base.intents && Amendable(status)
    ensures base.intents[i].tokenIn.Known?
    ensures var r := ExpireIntent(Exact, SetStatus(base, i, status), i, Some(OwnerOf(o, i)));
            var amount, settled := base.intents[i].amountIn, SettledQty(base.fills, i);
            var noRow := (OwnerOf(o, i), base.intents[i].tokenIn.asset) !in base.balances;
            && r.outcome.Done?
            && (LocksMatch(r.db, o.(released := o.released + {i})) <==>
                  if OwnerRow(base, o, i).locked < amount then i in o.released || settled == amount
                  else noRow || if i in o.released then amount == 0 else settled == 0)
  {
    hide SumMap, SettledQty, FilledQty, LocksMatch, LockedMoves, Others, OnlyIntent, Shape, Shift;
    LockedSplit(base, o, i);
    var t, acct := base.intents[i], OwnerOf(o, i);
    var asset := t.tokenIn.asset;
    var r, o' := ExpireIntent(Exact, SetStatus(base, i, status), i, Some(acct)), o.(released := o.released + {i});
    ExpiredRow(SetStatus(base, i, status), i, acct);
    assert r.db.intents == base.intents[i := t.(status := Expired)];
    hide ExpireIntent, Row;
    assert r.db == base.(intents := base.intents[i := t.(status := Expired)], balances := r.db.balances);
    OneRowOnly(base, o, i, t.(status := Expired), r.db.balances, o'.released);
    var d := if OwnerRow(base, o, i).locked < t.amountIn then 0 else Moved(base.balances, acct, asset, -t.amountIn);
    MatchesIff(base, r.db, o, o', i, acct, asset, d);
  }

  /** A released intent made amendable again has no lock to adjust: its amendment keeps the equation exactly when it
      changes nothing. */
  lemma AmendReleasedIff(base: Db, o: Origin, i: Id, status: IntentStatus, newAmountIn: nat, newMinAmountOut: Option<nat>,
                         newLimitPrice: Option<int>)
    requires LockInv(base, o) && i in base.intents && i in o.released
    requires AmendIntent(Exact, SetStatus(base, i, status), i, OwnerOf(o, i), Some(newAmountIn), newMinAmountOut, newLimitPrice).outcome.Done?
    ensures base.intents[i].tokenIn.Known?
    ensures var db' := AmendIntent(Exact, SetStatus(base, i, status), i, OwnerOf(o, i), Some(newAmountIn), newMinAmountOut, newLimitPrice).db;
            LocksMatch(db', o) <==> AsI64(newAmountIn) == base.intents[i].amountIn
                                    || (OwnerOf(o, i), base.intents[i].tokenIn.asset) !in base.balances
  {
    hide SumMap, SettledQty, FilledQty, LocksMatch, LockedMoves, Others, OnlyIntent, Shape;
    LockedSplit(base, o, i);
    var acct, asset := OwnerOf(o, i), base.intents[i].tokenIn.asset;
    var db' := AmendIntent(Exact, SetStatus(base, i, status), i, acct, Some(newAmountIn), newMinAmountOut, newLimitPrice).db;
    CommittedAmend(SetStatus(base, i, status), i, acct, newAmountIn, newMinAmountOut, newLimitPrice);
    assert db'.intents == base.intents[i := db'.intents[i]];
    hide AmendIntent;
    OneRowOnly(base, o, i, db'.intents[i], db'.balances, o.released);
    assert db' == base.(intents := base.intents[i := db'.intents[i]], balances := db'.balances);
    MatchesIff(base, db', o, o, i, acct, asset, Moved(base.balances, acct, asset, AsI64(newAmountIn) - base.intents[i].amountIn));
  }

  // ---------------------------------------------------------------
  // Somebody else's account
  // ---------------------------------------------------------------

  /** A change of intent `i` that moves a row of another account keeps accounting exactly when nothing really moved and
      the intent's lock stayed the same. */
  lemma ForeignRowIff(db: Db, db': Db, o: Origin, o': Origin, i: Id, x: Account, asset: Asset, d: int)
    requires LocksMatch(db, o) && OnlyIntent(db, db', o, o', i) && i in db.intents && i in o.owner && x != OwnerOf(o, i)
    requires LocksFor(db.intents, o, i, OwnerOf(o, i), asset) && LocksFor(db'.intents, o', i, OwnerOf(o, i), asset)
    requires LockedMoves(db.balances, db'.balances, x, asset, d)
    ensures LocksMatch(db', o') <==> d == 0 && Weight(db', o', i, OwnerOf(o, i), asset) == Weight(db, o, i, OwnerOf(o, i), asset)
  {
    var acct := OwnerOf(o, i);
    assert Row(db'.balances, acct, asset).locked == Row(db.balances, acct, asset).locked;
    MovedRow(db.balances, db'.balances, x, asset, d);
    if d == 0 { assert LockedMoves(db.balances, db'.balances, acct, asset, 0); }
    hide SumMap, SettledQty, LocksMatch, OnlyIntent, LockedMoves, LockSum, Row;
    OnlyIntentSums(db, db', o, o', i, x, asset);
    OnlyIntentSums(db, db', o, o', i, acct, asset);
    RowMatches(db, o, x, asset);
    RowMatches(db, o, acct, asset);
    if LocksMatch(db', o') {
      RowMatches(db', o', x, asset);
      RowMatches(db', o', acct, asset);
    }
    if d == 0 { MatchesIff(db, db', o, o', i, acct, asset, 0); }
  }

  /** Cancelling or failing through another account: exactly harmless when the intent locks nothing any more and the
      account has no row to move, or there was nothing to give back. */
  lemma ForeignReleaseIff(db: Db, o: Origin, i: Id, acct: Account, status: IntentStatus)
    requires LockInv(db, o) && i in db.intents && acct != OwnerOf(o, i)
    ensures db.intents[i].tokenIn.Known?
    ensures var r, amount := ReleaseIntent(Exact, db, i, acct, status), db.intents[i].amountIn;
            && r.outcome.Done?
            && (LocksMatch(r.db, o.(released := o.released + {i})) <==>
                  && (i in o.released || amount == SettledQty(db.fills, i))
                  && (amount == 0 || (acct, db.intents[i].tokenIn.asset) !in db.balances))
  {
    hide SumMap, SettledQty, FilledQty, LocksMatch, LockedMoves, Others, OnlyIntent, Shape, Shift;
    LockedSplit(db, o, i);
    var t := db.intents[i];
    ShiftMoves(db.balances, acct, t.tokenIn.asset, t.amountIn, -t.amountIn);
    var r, o' := ReleaseIntent(Exact, db, i, acct, status), o.(released := o.released + {i});
    assert r.db == db.(intents := db.intents[i := t.(status := status)], balances := r.db.balances);
    OneRowOnly(db, o, i, t.(status := status), r.db.balances, o'.released);
    ForeignRowIff(db, r.db, o, o', i, acct, t.tokenIn.asset, Moved(db.balances, acct, t.tokenIn.asset, -t.amountIn));
  }

  /** Amending through another account keeps accounting exactly when the amount stays what it was. */
  lemma ForeignAmendIff(db: Db, o: Origin, i: Id, acct: Account, newAmountIn: nat, newMinAmountOut: Option<nat>, newLimitPrice: Option<int>)
    requires LockInv(db, o) && i in db.intents && acct != OwnerOf(o, i)
    requires AmendIntent(Exact, db, i, acct, Some(newAmountIn), newMinAmountOut, newLimitPrice).outcome.Done?
    ensures LocksMatch(AmendIntent(Exact, db, i, acct, Some(newAmountIn), newMinAmountOut, newLimitPrice).db, o)
            <==> AsI64(newAmountIn) == db.intents[i].amountIn
  {
    hide SumMap, SettledQty, FilledQty, LocksMatch, LockedMoves, Others, OnlyIntent, Shape;
    LockedSplit(db, o, i);
    OwnedRow(db, o, i);
    var db' := AmendIntent(Exact, db, i, acct, Some(newAmountIn), newMinAmountOut, newLimitPrice).db;
    CommittedAmend(db, i, acct, newAmountIn, newMinAmountOut, newLimitPrice);
    assert Amendable(db.intents[i].status);
    hide AmendIntent;
    var asset := db.intents[i].tokenIn.asset;
    OneRowOnly(db, o, i, db'.intents[i], db'.balances, o.released);
    ForeignRowIff(db, db', o, o, i, acct, asset, Moved(db.balances, acct, asset, AsI64(newAmountIn) - db.intents[i].amountIn));
  }

  // ---------------------------------------------------------------
  // Settlement
  // ---------------------------------------------------------------

  /** A committed settlement keeps the lock equation exactly when it charged the account and the asset that the fill's
      intent locked, and that intent had not given its lock back. */
  lemma SettleMatchIff(db: Db, o: Origin, f: Id, buyer: Account, seller: Account, assetIn: Asset, assetOut: Asset, rate: real)
    requires LocksMatch(db, o) && f in db.fills && db.fills[f].filledQty > 0
    requires db.fills[f].intent in db.intents && db.fills[f].intent in o.owner
    requires SettleFill(Exact, db, f, buyer, seller, assetIn, assetOut, rate).outcome.Done?
    ensures var i := db.fills[f].intent;
            LocksMatch(SettleFill(Exact, db, f, buyer, seller, assetIn, assetOut, rate).db, o) <==>
              i !in o.released && buyer == OwnerOf(o, i) && db.intents[i].tokenIn == Known(assetIn)
  {
    hide SumMap, SettledQty, FilledQty, FillBalances, FillLedger, LockSum;
    var r, i := SettleFill(Exact, db, f, buyer, seller, assetIn, assetOut, rate), db.fills[f].intent;
    FillLocked(Exact, db, f, buyer, seller, assetIn, assetOut, rate);
    var ours := i !in o.released && buyer == OwnerOf(o, i) && db.intents[i].tokenIn == Known(assetIn);
    forall x, a ensures LockSum(r.db, o, x, a) == LockSum(db, o, x, a) -
                  if i !in o.released && x == OwnerOf(o, i) && Known(a) == db.intents[i].tokenIn then db.fills[f].filledQty else 0 {
      SettledSum(db, r.db, o, f, x, a);
    }
    MovedRow(db.balances, r.db.balances, buyer, assetIn, -db.fills[f].filledQty);
    RowMatches(db, o, buyer, assetIn);
    hide SettleFill, Row;
    if ours {
      forall x, a ensures Row(r.db.balances, x, a).locked == LockSum(r.db, o, x, a) { RowMatches(db, o, x, a); }
    } else if LocksMatch(r.db, o) {
      RowMatches(r.db, o, buyer, assetIn);
      assert false;
    }
  }

  lemma SettledSum(db: Db, db': Db, o: Origin, f: Id, x: Account, a: Asset)
    requires f in db.fills && !db.fills[f].settled && db.fills[f].intent in db.intents && db.fills[f].intent in o.owner
    requires db'.intents == db.intents && db'.fills == db.fills[f := db.fills[f].(settled := true)]
    ensures var i := db.fills[f].intent;
            LockSum(db', o, x, a) == LockSum(db, o, x, a) -
              if i !in o.released && x == OwnerOf(o, i) && Known(a) == db.intents[i].tokenIn then db.fills[f].filledQty else 0
  {
    hide SumMap, SettledQty, FilledQty;
    var i := db.fills[f].intent;
    var was, now := LockWeight(o, db.fills, x, a), LockWeight(o, db'.fills, x, a);
    forall j | j in db.intents && j != i ensures was(j, db.intents[j]) == now(j, db.intents[j]) { MarkSettled(db.fills, f, j); }
    MarkSettled(db.fills, f, i);
    SumChange(db.intents, db.intents, was, now, i);
  }

  /** Under lock accounting a settlement of an unsettled fill commits exactly when the seller can hand over the outgoing
      asset, counting what he has just received in it and, if he is the buyer too, the delivery itself. */
  lemma SettleCommitsIff(db: Db, o: Origin, f: Id, i: Id, buyer: Account, seller: Account, assetIn: Asset, assetOut: Asset, rate: real)
    requires LockInv(db, o) && FillContract(db, o, f, i, buyer, assetIn) && f in db.fills && !db.fills[f].settled
    ensures var fill := db.fills[f];
            SettleFill(Exact, db, f, buyer, seller, assetIn, assetOut, rate).outcome.Done? <==>
              fill.qty <= Row(db.balances, seller, assetOut).available
                          + (if assetIn == assetOut then fill.filledQty - TotalFee(fill.filledQty, rate) else 0)
                          + (if buyer == seller then fill.qty else 0)
  {
    hide LocksMatch, SettledQty, FilledQty, TotalFee, SolverFee, FillLedger;
    var fill := db.fills[f];
    var fee := TotalFee(fill.filledQty, rate);
    assert FillRow(db, o, f);
    UnlockNeverFails(db, o, f);
    var b0 := UnlockAndDebit(Exact, db.balances, buyer, assetIn, fill.filledQty).value;
    UnlockKeepsAvailable(db.balances, buyer, assetIn, fill.filledQty, seller, assetOut);
    SwapCommitsIff(b0, buyer, seller, assetIn, assetOut, fill.filledQty - fee, fill.qty);
    hide UnlockAndDebit, Swap, Row;
  }

  lemma UnlockKeepsAvailable(b: Balances, acct: Account, asset: Asset, amount: int, x: Account, a: Asset)
    requires UnlockAndDebit(Exact, b, acct, asset, amount).Some?
    ensures Row(UnlockAndDebit(Exact, b, acct, asset, amount).value, x, a).available == Row(b, x, a).available
  {
  }

  lemma SwapCommitsIff(b: Balances, buyer: Account, seller: Account, assetIn: Asset, assetOut: Asset, receives: int, out: int)
    ensures Swap(Exact, b, buyer, seller, assetIn, assetOut, receives, out).Some? <==>
              out <= Row(b, seller, assetOut).available + (if assetIn == assetOut then receives else 0)
                     + (if buyer == seller then out else 0)
  {
    var b1 := Credit(Exact, b, seller, assetIn, receives);
    assert Row(b1, seller, assetOut).available == Row(b, seller, assetOut).available + if assetIn == assetOut then receives else 0;
    var b2 := Credit(Exact, b1, buyer, assetOut, out);
    assert Row(b2, seller, assetOut).available == Row(b1, seller, assetOut).available + if buyer == seller then out else 0;
  }

  /** The balance service's own lock calls move locked funds with no intent behind them: each one that commits breaks
      the accounting. */
  lemma LockCallBreaks(db: Db, o: Origin, acct: Account, asset: Asset, amount: int)
    requires LocksMatch(db, o)
    ensures LockBalance(Exact, db, acct, asset, amount).outcome.Done? ==> !LocksMatch(LockBalance(Exact, db, acct, asset, amount).db, o)
    ensures UnlockBalance(Exact, db, acct, asset, amount).outcome.Done? ==> !LocksMatch(UnlockBalance(Exact, db, acct, asset, amount).db, o)
  {
    hide SumMap;
    RowMatches(db, o, acct, asset);
    var l, u := LockBalance(Exact, db, acct, asset, amount), UnlockBalance(Exact, db, acct, asset, amount);
    if l.outcome.Done? {
      assert Row(l.db.balances, acct, asset).locked != LockSum(l.db, o, acct, asset);
    }
    if u.outcome.Done? {
      assert Row(u.db.balances, acct, asset).locked != LockSum(u.db, o, acct, asset);
    }
  }
}
