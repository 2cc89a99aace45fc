/** What closing an auction does, said of the submitted bids and the tables: who is filled, in which order, for how much,
    and with which status the intent ends; and that an amended limit is the one the next close applies. */
module AuctionEffects {
  import opened Prelude
  import opened Auction
  import opened Accounting
  import opened Exchange
  import opened Runs
  import opened Locks

  /** What a bid is worth: amount less fee, held within i64. */
  function Worth(b: Bid): int {
    var d := b.amountOut - b.fee;
    if d > 0x7FFF_FFFF_FFFF_FFFF then 0x7FFF_FFFF_FFFF_FFFF else if d < -0x8000_0000_0000_0000 then -0x8000_0000_0000_0000 else d
  }

  /** A limit order takes no bid worth less than its limit, or than nothing if it has none. */
  predicate Passes(t: Intent, b: Bid) {
    t.orderType.Limit? ==> Worth(b) >= if t.limitPrice.Some? then t.limitPrice.value else 0
  }

  /** Strictly better: worth more, or worth the same and earlier. */
  predicate Above(a: Bid, b: Bid) { Worth(a) > Worth(b) || (Worth(a) == Worth(b) && a.timestamp < b.timestamp) }

  /** What the bids that pass offer in all. */
  function Offered(t: Intent, bids: seq<Bid>): nat {
    if bids == [] then 0
    else (if Passes(t, bids[0]) && Worth(bids[0]) > 0 then Worth(bids[0]) else 0) + Offered(t, bids[1..])
  }

  predicate AnyPasses(t: Intent, bids: seq<Bid>) { exists k :: 0 <= k < |bids| && Passes(t, bids[k]) }

  function Submitted(db: Db, i: Id): seq<Bid> { if i in db.bids then db.bids[i] else [] }

  /** A new fill is the bid's: its solver, its price, what it is worth, and at most that much taken. */
  predicate FilledFrom(fill: Fill, i: Id, b: Bid) {
    && fill.intent == i && fill.solver == b.solver && fill.price == b.amountOut && fill.qty == Worth(b)
    && 0 < fill.filledQty <= Worth(b) && !fill.settled
  }

  /** The new fills are those of the used bids, in order, all but the last taking the whole bid. */
  ghost predicate SoldTo(db: Db, db': Db, i: Id, used: seq<Bid>) {
    && (forall f :: f in db'.fills <==> f in db.fills || db.nextId <= f < db.nextId + |used|)
    && (forall f :: f in db.fills ==> db'.fills[f] == db.fills[f])
    && (forall f :: db.nextId <= f < db.nextId + |used| ==>
          && FilledFrom(db'.fills[f], i, used[f - db.nextId])
          && (f < db.nextId + |used| - 1 ==> db'.fills[f].filledQty == Worth(used[f - db.nextId])))
  }

  // ---------------------------------------------------------------
  // From the sorted and filtered list back to the submitted bids
  // ---------------------------------------------------------------

  lemma WorthIsNet(b: Bid)
    ensures Worth(b) == Net(b)
  {
  }

  lemma {:induction false} OfferedInsert(t: Intent, b: Bid, s: seq<Bid>)
    ensures Offered(t, InsertBid(b, s)) == Offered(t, [b] + s)
  {
    hide Passes, Worth;
    assert ([b] + s)[1..] == s;
    if s != [] && !Ranks(b, s[0]) {
      OfferedInsert(t, b, s[1..]);
      assert InsertBid(b, s) == [s[0]] + InsertBid(b, s[1..]) && ([s[0]] + InsertBid(b, s[1..]))[1..] == InsertBid(b, s[1..]);
      assert ([b] + s[1..])[1..] == s[1..];
    }
  }

  lemma {:induction false} OfferedSorted(t: Intent, s: seq<Bid>)
    ensures Offered(t, SortBids(s)) == Offered(t, s)
  {
    hide Passes, Worth, InsertBid;
    if s != [] {
      OfferedSorted(t, s[1..]);
      OfferedInsert(t, s[0], SortBids(s[1..]));
      assert ([s[0]] + SortBids(s[1..]))[1..] == SortBids(s[1..]);
    }
  }

  lemma {:induction false} KeptNets(t: Intent, s: seq<Bid>)
    ensures PositiveNets(FilterBids(t.orderType, t.limitPrice, s)) == Offered(t, s)
  {
    if s != [] {
      KeptNets(t, s[1..]);
      WorthIsNet(s[0]);
      var kept, rest := FilterBids(t.orderType, t.limitPrice, s), FilterBids(t.orderType, t.limitPrice, s[1..]);
      hide Worth, Net;
      if Passes(t, s[0]) {
        assert kept == [s[0]] + rest && kept[1..] == rest;
      } else {
        assert kept == rest;
      }
    }
  }

  /** On the sorted list no later bid is above an earlier one. */
  lemma NoneAbove(submitted: seq<Bid>, k: nat, l: nat)
    requires k < l < |SortBids(submitted)|
    ensures !Above(SortBids(submitted)[l], SortBids(submitted)[k])
  {
    hide SortBids, Net;
    SortRanked(submitted);
    var sorted := SortBids(submitted);
    assert Ranks(sorted[k], sorted[l]);
    WorthIsNet(sorted[k]);
    WorthIsNet(sorted[l]);
    hide Worth;
  }

  /** The bids that pass are the first ones of the sorted list; there is none exactly when no submitted bid passes. */
  lemma PassingFirst(t: Intent, submitted: seq<Bid>)
    ensures var sorted := SortBids(submitted);
            var kept := FilterBids(t.orderType, t.limitPrice, sorted);
            && kept <= sorted && (forall k :: 0 <= k < |kept| ==> Passes(t, sorted[k]))
            && (kept == [] <==> !AnyPasses(t, submitted))
  {
    var sorted := SortBids(submitted);
    var kept := FilterBids(t.orderType, t.limitPrice, sorted);
    SortRanked(submitted);
    FilterIsPrefix(t.orderType, t.limitPrice, sorted);
    assert !t.orderType.Limit? ==> kept == sorted;
    hide SortBids, FilterBids, Net, Worth;
    forall k | 0 <= k < |sorted| ensures k < |kept| <==> Passes(t, sorted[k]) { WorthIsNet(sorted[k]); }
    PassingIn(t, sorted, submitted);
    if kept != [] { assert Passes(t, sorted[0]); }
  }

  lemma PassingIn(t: Intent, s: seq<Bid>, s': seq<Bid>)
    requires multiset(s) == multiset(s')
    ensures AnyPasses(t, s) <==> AnyPasses(t, s')
  {
    hide Passes;
    forall k | 0 <= k < |s| ensures s[k] in s' { assert s[k] in multiset(s); }
    forall k | 0 <= k < |s'| ensures s'[k] in s { assert s'[k] in multiset(s'); }
    if AnyPasses(t, s) {
      var k :| 0 <= k < |s| && Passes(t, s[k]);
      assert s[k] in s';
    }
    if AnyPasses(t, s') {
      var k :| 0 <= k < |s'| && Passes(t, s'[k]);
      assert s'[k] in s;
    }
  }

  lemma {:induction false} InsertedRows(fills: map<Id, Fill>, i: Id, drafts: seq<Draft>, firstId: Id)
    requires forall f :: f in fills ==> f < firstId
    ensures var fills' := InsertFills(fills, i, drafts, firstId);
            && (forall f :: f in fills' <==> f in fills || firstId <= f < firstId + |drafts|)
            && (forall f :: f in fills ==> fills'[f] == fills[f])
            && (forall f :: firstId <= f < firstId + |drafts| ==>
                  var d := drafts[f - firstId];
                  fills'[f] == Fill(i, d.solver, d.price, d.qty, d.filledQty, false))
    decreases |drafts|
  {
    if drafts != [] {
      var d := drafts[0];
      var next := fills[firstId := Fill(i, d.solver, d.price, d.qty, d.filledQty, false)];
      InsertedRows(next, i, drafts[1..], firstId + 1);
      forall f ensures f in InsertFills(fills, i, drafts, firstId) <==> f in fills || firstId <= f < firstId + |drafts| {
        assert f in next <==> f in fills || f == firstId;
      }
    }
  }

  // ---------------------------------------------------------------
  // Closing
  // ---------------------------------------------------------------

  function AtLeastZero(x: int): nat { if x < 0 then 0 else x }

  /** The whole effect of a close. `used` are the bids that get a fill, best first, `rest` the others. */
  lemma CloseEffect(db: Db, i: Id) returns (used: seq<Bid>, rest: seq<Bid>)
    requires i in db.intents && forall f :: f in db.fills ==> f < db.nextId
    ensures multiset(used + rest) == multiset(Submitted(db, i))
    ensures var db', t := CloseAuction(db, i).db, db.intents[i];
            && SoldTo(db, db', i, used)
            && FilledQty(db'.fills, i) - FilledQty(db.fills, i) == Min(AtLeastZero(t.amountIn), Offered(t, Submitted(db, i)))
            && db' == db.(fills := db'.fills, nextId := db.nextId + |used|,
                          intents := db.intents[i := t.(status :=
                            if !AnyPasses(t, Submitted(db, i)) then Failed
                            else if Offered(t, Submitted(db, i)) >= t.amountIn then Matched else PartiallyFilled)])
    ensures forall k :: 0 <= k < |used| ==> Passes(db.intents[i], used[k])
    ensures forall k, l :: 0 <= k < l < |used| ==> !Above(used[l], used[k])
    ensures forall b, k :: b in rest && 0 <= k < |used| ==> !Above(b, used[k])
  {
    var t, submitted := db.intents[i], Submitted(db, i);
    hide CloseAuction, CloseDrafts, SortBids, FilterBids, GenerateFills, Passes, Above, Worth, AnyPasses, Offered, Submitted,
      InsertFills, FilledQty, SoldTo, DraftedFrom, AtLeastZero, Min;
    var sorted, drafts := SortBids(submitted), CloseDrafts(db, i);
    CloseFrame(db, i);
    DraftsAre(db, i);
    DraftsOf(t, sorted, submitted);
    var n := |drafts|;
    used, rest := sorted[..n], sorted[n..];
    Sold(db, CloseAuction(db, i).db, i, drafts, used);
    SplitRanks(t, submitted, n, used, rest);
  }

  /** The used bids pass, none above them is left over, and together with the rest they are the submitted ones. */
  lemma SplitRanks(t: Intent, submitted: seq<Bid>, n: nat, used: seq<Bid>, rest: seq<Bid>)
    requires n <= |FilterBids(t.orderType, t.limitPrice, SortBids(submitted))| <= |SortBids(submitted)|
    requires used == SortBids(submitted)[..n] && rest == SortBids(submitted)[n..]
    ensures multiset(used + rest) == multiset(submitted)
    ensures forall k :: 0 <= k < |used| ==> Passes(t, used[k])
    ensures forall k, l :: 0 <= k < l < |used| ==> !Above(used[l], used[k])
    ensures forall b, k :: b in rest && 0 <= k < |used| ==> !Above(b, used[k])
  {
    assert multiset(SortBids(submitted)) == multiset(submitted);
    hide SortBids, FilterBids, Passes, Above, AnyPasses;
    assert used + rest == SortBids(submitted);
    PassingFirst(t, submitted);
    forall k, l | 0 <= k < l < |used| ensures !Above(used[l], used[k]) { NoneAbove(submitted, k, l); }
    forall b, k | b in rest && 0 <= k < |used| ensures !Above(b, used[k]) {
      var l :| 0 <= l < |rest| && rest[l] == b;
      NoneAbove(submitted, k, n + l);
    }
  }

  lemma DraftsAre(db: Db, i: Id)
    requires i in db.intents
    ensures var t := db.intents[i];
            CloseDrafts(db, i) == GenerateFills(t.amountIn, FilterBids(t.orderType, t.limitPrice, SortBids(Submitted(db, i))))
            && (AcceptedBids(db, i) == [] <==> FilterBids(t.orderType, t.limitPrice, SortBids(Submitted(db, i))) == [])
  {
    hide SortBids, FilterBids, GenerateFills;
  }

  /** All of a close but the fills themselves. */
  lemma CloseFrame(db: Db, i: Id)
    requires i in db.intents && forall f :: f in db.fills ==> f < db.nextId
    ensures var db', t := CloseAuction(db, i).db, db.intents[i];
            && FilledQty(db'.fills, i) - FilledQty(db.fills, i) == Min(AtLeastZero(t.amountIn), Offered(t, Submitted(db, i)))
            && db'.fills == InsertFills(db.fills, i, CloseDrafts(db, i), db.nextId)
            && db' == db.(fills := db'.fills, nextId := db.nextId + |CloseDrafts(db, i)|,
                          intents := db.intents[i := t.(status :=
                            if !AnyPasses(t, Submitted(db, i)) then Failed
                            else if Offered(t, Submitted(db, i)) >= t.amountIn then Matched else PartiallyFilled)])
  {
    hide AcceptedBids, SortBids, FilterBids, GenerateFills, Passes, AnyPasses, Offered, Submitted, TotalFilled, InsertFills,
      FilledQty, SettledQty, CloseDrafts, AtLeastZero, Min;
    var t, submitted := db.intents[i], Submitted(db, i);
    DraftsAre(db, i);
    PassingFirst(t, submitted);
    Total(t, submitted);
    InsertSums(db.fills, i, CloseDrafts(db, i), db.nextId, i);
  }

  /** A draft is its bid's. */
  ghost predicate DraftedFrom(drafts: seq<Draft>, bids: seq<Bid>) {
    && |drafts| <= |bids|
    && forall k :: 0 <= k < |drafts| ==>
         && drafts[k].solver == bids[k].solver && drafts[k].price == bids[k].amountOut
         && drafts[k].qty == Worth(bids[k]) && 0 < drafts[k].filledQty <= Worth(bids[k])
         && (k < |drafts| - 1 ==> drafts[k].filledQty == Worth(bids[k]))
  }

  lemma Sold(db: Db, db': Db, i: Id, drafts: seq<Draft>, used: seq<Bid>)
    requires (forall f :: f in db.fills ==> f < db.nextId) && db'.fills == InsertFills(db.fills, i, drafts, db.nextId)
    requires |used| == |drafts| && DraftedFrom(drafts, used)
    ensures SoldTo(db, db', i, used)
  {
    hide Worth;
    InsertedRows(db.fills, i, drafts, db.nextId);
    hide InsertFills;
  }

  /** The drafts and the bids they come from. */
  lemma DraftsOf(t: Intent, sorted: seq<Bid>, submitted: seq<Bid>)
    requires sorted == SortBids(submitted)
    ensures var accepted := FilterBids(t.orderType, t.limitPrice, sorted);
            var drafts := GenerateFills(t.amountIn, accepted);
            |drafts| <= |accepted| <= |sorted| && DraftedFrom(drafts, sorted[..|drafts|])
  {
    var accepted := FilterBids(t.orderType, t.limitPrice, sorted);
    SortRanked(submitted);
    FilterIsPrefix(t.orderType, t.limitPrice, sorted);
    hide SortBids, FilterBids, Worth, Net;
    assert Ranked(accepted);
    FillsFollowRank(t.amountIn, accepted);
    FillsWhole(t.amountIn, accepted);
    hide GenerateFills, Ranked;
    var drafts := GenerateFills(t.amountIn, accepted);
    forall k | 0 <= k < |drafts| ensures accepted[k] == sorted[k] && Worth(sorted[k]) == Net(accepted[k]) { WorthIsNet(sorted[k]); }
  }

  lemma Total(t: Intent, submitted: seq<Bid>)
    ensures var accepted := FilterBids(t.orderType, t.limitPrice, SortBids(submitted));
            var total := TotalFilled(GenerateFills(t.amountIn, accepted));
            && total == Min(AtLeastZero(t.amountIn), Offered(t, submitted))
            && (total >= t.amountIn <==> Offered(t, submitted) >= t.amountIn)
  {
    var accepted := FilterBids(t.orderType, t.limitPrice, SortBids(submitted));
    OfferedSorted(t, submitted);
    KeptNets(t, SortBids(submitted));
    hide SortBids, FilterBids, Offered, PositiveNets;
    if t.amountIn >= 0 { FillsSum(t.amountIn, accepted); }
  }

  // ---------------------------------------------------------------
  // An amended limit is applied
  // ---------------------------------------------------------------

  /** Nothing but the status differs. */
  predicate SameTerms(t: Intent, t': Intent) { t'.(status := t.status) == t }

  predicate Amends(s: Step, i: Id) { s.OnIntent? && s.i.AmendCall? && s.i.intent == i }

  lemma {:induction false} SettleEachIntents(db: Db, rows: seq<Id>, buyer: Account, seller: Account,
                                             assetIn: Asset, assetOut: Asset, rate: real)
    ensures var db' := SettleEach(Exact, db, rows, buyer, seller, assetIn, assetOut, rate);
            db'.intents == db.intents && db'.nextId == db.nextId
    decreases |rows|
  {
    hide FillBalances, FillLedger;
    if rows != [] {
      SettleEachIntents(SettleFill(Exact, db, rows[0], buyer, seller, assetIn, assetOut, rate).db, rows[1..],
                        buyer, seller, assetIn, assetOut, rate);
    }
  }

  ghost predicate Keeps(db: Db, db': Db, i: Id) {
    i in db.intents && i in db'.intents && SameTerms(db.intents[i], db'.intents[i]) && db.nextId <= db'.nextId
  }

  lemma BalanceCallKeeps(db: Db, c: BalanceCall, i: Id)
    requires i in db.intents
    ensures Keeps(db, ApplyBalance(Exact, db, c).db, i)
  {
    hide Row, Credit, Debit, Touch, MoveRows;
    match c {
      case DepositCall(_, _, _) =>
      case WithdrawCall(_, _, _) =>
      case LockCall(_, _, _) =>
      case UnlockCall(_, _, _) =>
      case TransferCall(_, _, _, _) =>
    }
  }

  lemma IntentCallKeeps(db: Db, c: IntentCall, i: Id)
    requires i in db.intents && i < db.nextId && !Amends(OnIntent(c), i)
    ensures Keeps(db, ApplyIntent(Exact, db, c).db, i)
  {
    hide Row, Shift, Relock, AmendDiff, AmendedAmount;
    match c {
      case CreateCall(_, _, _, _, _, _, _) =>
      case AmendCall(_, _, _, _, _) =>
      case ReleaseCall(_, _, _) =>
      case ExpireCall(_, _) =>
    }
  }

  lemma AuctionCallKeeps(db: Db, c: AuctionCall, i: Id)
    requires i in db.intents
    ensures Keeps(db, ApplyAuction(db, c).db, i)
  {
    hide CloseDrafts, CloseStatus, InsertFills, HasFills;
    match c {
      case BidCall(_, _, _) =>
      case BeginCall(_) =>
      case CloseCall(_) =>
      case ExecuteCall(_) =>
    }
  }

  lemma EventKeeps(db: Db, f: Id, j: Id, buyer: Account, seller: Account, tokenIn: Token, tokenOut: Token, rate: real, i: Id)
    requires i in db.intents
    ensures Keeps(db, ProcessEvent(Exact, db, f, j, buyer, seller, tokenIn, tokenOut, rate).db, i)
  {
    hide SettledQty, FillBalances, FillLedger;
    if tokenIn.Known? && tokenOut.Known? {
      var r := SettleFill(Exact, db, f, buyer, seller, tokenIn.asset, tokenOut.asset, rate);
      assert r.db.intents == db.intents && r.db.nextId == db.nextId;
      hide SettleFill;
    }
  }

  lemma SettleCallKeeps(db: Db, c: SettleCall, i: Id)
    requires i in db.intents
    ensures Keeps(db, ApplySettle(Exact, db, c).db, i)
  {
    hide SettledQty, SettleEach, HasFills, ProcessEvent, ComputeStatus, TradeBalances, TradeLedger;
    match c {
      case EventCall(f, j, buyer, seller, tokenIn, tokenOut, rate) =>
        EventKeeps(db, f, j, buyer, seller, tokenIn, tokenOut, rate, i);
      case SettleIntentCall(_, rows, buyer, seller, assetIn, assetOut, rate) =>
        SettleEachIntents(db, rows, buyer, seller, assetIn, assetOut, rate);
      case NewTradeCall(_) =>
      case SettleTradeCall(_) =>
    }
  }

  /** No call but an amendment of the intent changes its terms. */
  lemma StepKeepsTerms(db: Db, s: Step, i: Id)
    requires i in db.intents && i < db.nextId && !Amends(s, i)
    ensures Keeps(db, Apply(Exact, db, s).db, i)
  {
    hide ApplyBalance, ApplyIntent, ApplyAuction, ApplySettle, Keeps;
    match s {
      case OnBalance(c) => BalanceCallKeeps(db, c, i);
      case OnIntent(c) => IntentCallKeeps(db, c, i);
      case OnAuction(c) => AuctionCallKeeps(db, c, i);
      case OnSettle(c) => SettleCallKeeps(db, c, i);
    }
  }

  lemma {:induction false} RunKeepsTerms(x: World, steps: seq<Step>, i: Id)
    requires i in x.db.intents && i < x.db.nextId && forall k :: 0 <= k < |steps| ==> !Amends(steps[k], i)
    ensures Keeps(x.db, Run(Exact, x, steps).db, i)
  {
    if steps != [] {
      var init := steps[..|steps| - 1];
      RunKeepsTerms(x, init, i);
      assert !Amends(steps[|steps| - 1], i);
      hide Apply, Observe;
      StepKeepsTerms(Run(Exact, x, init).db, steps[|steps| - 1], i);
    }
  }

  /** After a limit order is amended to `limit`, and any calls that do not amend it again, every fill of its next close
      comes from a submitted bid worth at least `limit`. */
  lemma AmendedLimitHonoured(x: World, amended: World, i: Id, acct: Account, newAmountIn: Option<nat>, newMinAmountOut: Option<nat>,
                             limit: int, steps: seq<Step>, f: Id)
    requires AmendIntent(Exact, x.db, i, acct, newAmountIn, newMinAmountOut, Some(limit)).outcome.Done?
    requires i in x.db.intents && x.db.intents[i].orderType.Limit? && i < x.db.nextId
    requires amended.db == AmendIntent(Exact, x.db, i, acct, newAmountIn, newMinAmountOut, Some(limit)).db
    requires forall k :: 0 <= k < |steps| ==> !Amends(steps[k], i)
    requires var y := Run(Exact, amended, steps).db;
             && (forall g :: g in y.fills ==> g < y.nextId) && f in CloseAuction(y, i).db.fills && f !in y.fills
    ensures var y := Run(Exact, amended, steps).db;
            var fill := CloseAuction(y, i).db.fills[f];
            exists b :: b in Submitted(y, i) && Worth(b) >= limit && fill.solver == b.solver && fill.price == b.amountOut && fill.qty == Worth(b)
  {
    assert i in amended.db.intents && i < amended.db.nextId && amended.db.intents[i].limitPrice == Some(limit)
           && amended.db.intents[i].orderType.Limit? by { AmendStoresLimit(x.db, i, acct, newAmountIn, newMinAmountOut, limit); }
    hide AmendIntent;
    RunKeepsTerms(amended, steps, i);
    var y := Run(Exact, amended, steps).db;
    hide Run, CloseAuction, Worth;
    NewFillFrom(y, i, f);
    var b :| b in Submitted(y, i) && Passes(y.intents[i], b) && FilledFrom(CloseAuction(y, i).db.fills[f], i, b);
  }

  /** Every new fill comes from a submitted bid that passes. */
  lemma NewFillFrom(db: Db, i: Id, f: Id)
    requires i in db.intents && (forall g :: g in db.fills ==> g < db.nextId)
    requires f in CloseAuction(db, i).db.fills && f !in db.fills
    ensures exists b :: b in Submitted(db, i) && Passes(db.intents[i], b) && FilledFrom(CloseAuction(db, i).db.fills[f], i, b)
  {
    hide CloseAuction, Worth, Above, Offered, AnyPasses, Passes, FilledFrom, Submitted, FilledQty;
    var used, rest := CloseEffect(db, i);
    assert db.nextId <= f < db.nextId + |used|;
    var k := f - db.nextId;
    assert (used + rest)[k] == used[k] && used[k] in multiset(used + rest);
    assert used[k] in Submitted(db, i);
  }

  lemma AmendStoresLimit(db: Db, i: Id, acct: Account, newAmountIn: Option<nat>, newMinAmountOut: Option<nat>, limit: int)
    requires AmendIntent(Exact, db, i, acct, newAmountIn, newMinAmountOut, Some(limit)).outcome.Done?
    ensures var db' := AmendIntent(Exact, db, i, acct, newAmountIn, newMinAmountOut, Some(limit)).db;
            && i in db.intents && i in db'.intents && db'.nextId == db.nextId
            && db'.intents[i].limitPrice == Some(limit) && db'.intents[i].orderType == db.intents[i].orderType
  {
    hide Relock, Row;
  }
}
