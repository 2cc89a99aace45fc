/** Two concrete runs in which the lock of one order pays for another, because a call broke its contract. */
module LockWitnesses {
  import opened Prelude
  import opened Auction
  import opened Accounting
  import opened Exchange
  import opened Runs
  import opened Locks

  ghost function After(steps: seq<Step>): World { Run(Exact, Start(map[]), steps) }

  lemma OneMoreStep(steps: seq<Step>, s: Step)
    ensures After(steps + [s]) == Next(Exact, After(steps), s)
  {
    assert (steps + [s])[..|steps|] == steps;
  }

  function Order(amount: int, status: IntentStatus): Intent { Intent(Known(USDC), Known(ETH), amount, 0, status, Market, None) }

  function Opens(amount: nat): Step { OnIntent(CreateCall(7, Known(USDC), Known(ETH), amount, 0, true, 0)) }

  /** What the proofs read of a world. */
  ghost predicate Is(x: World, balances: Balances, intents: map<Id, Intent>, bids: map<Id, seq<Bid>>, fills: map<Id, Fill>,
                     nextId: Id, owner: map<Id, Account>, released: set<Id>) {
    && x.db.balances == balances && x.db.intents == intents && x.db.bids == bids && x.db.fills == fills
    && x.db.nextId == nextId && x.db.solverAccounts == map[] && x.h.origin.owner == owner && x.h.origin.released == released
  }

  // ---------------------------------------------------------------
  // An amount that turns negative
  // ---------------------------------------------------------------

  /** One account opens two orders of 50 and amends the first to 2^64 - 1. */
  function AmendmentRun(): seq<Step> {
    [] + [OnBalance(DepositCall(7, USDC, 100))] + [Opens(50)] + [Opens(50)]
    + [OnIntent(AmendCall(1, 7, Some(0xFFFF_FFFF_FFFF_FFFF), None, None))]
  }

  /** The amendment commits, reads the amount as -1 and frees 51: the second order's lock of 50 is short by one. */
  lemma AmendmentSpendsAnotherLock()
    ensures var x := After(AmendmentRun());
            && 1 in x.db.intents && x.db.intents[1].amountIn == -1
            && 2 in x.db.intents && x.db.intents[2] == Order(50, Open)
            && 2 !in x.h.origin.released && OwnerOf(x.h.origin, 2) == 7
            && Row(x.db.balances, 7, USDC).locked == 49
  {
    var deposit := OnBalance(DepositCall(7, USDC, 100));
    var amend := OnIntent(AmendCall(1, 7, Some(0xFFFF_FFFF_FFFF_FFFF), None, None));
    var s1 := [] + [deposit];
    var s2 := s1 + [Opens(50)];
    var s3 := s2 + [Opens(50)];
    OneMoreStep([], deposit);
    OneMoreStep(s1, Opens(50));
    OneMoreStep(s2, Opens(50));
    OneMoreStep(s3, amend);
    hide After, Run, Next, Opens;
    assert Is(After([]), map[], map[], map[], map[], 0, map[], {}) by { Empty(); }
    Deposits(After([]), 7, USDC, 100, After(s1));
    Creates(After(s1), 50, After(s2));
    Creates(After(s2), 50, After(s3));
    AmendsToMinusOne(After(s3), After(s3 + [amend]));
  }

  lemma Empty()
    ensures Is(After([]), map[], map[], map[], map[], 0, map[], {})
  {
  }

  lemma Deposits(x: World, acct: Account, asset: Asset, amount: int, x': World)
    requires x' == Next(Exact, x, OnBalance(DepositCall(acct, asset, amount))) && amount > 0
    ensures x'.db == x.db.(balances := Credit(Exact, x.db.balances, acct, asset, amount), ledger := x'.db.ledger,
                           nextId := x.db.nextId + 1)
    ensures x'.h.origin == x.h.origin
  {
  }

  lemma Creates(x: World, amount: nat, x': World)
    requires x' == Next(Exact, x, Opens(amount)) && amount <= I64_MAX
    requires (7, USDC) in x.db.balances && amount <= x.db.balances[(7, USDC)].available
    ensures var row := x.db.balances[(7, USDC)];
            x'.db == x.db.(balances := x.db.balances[(7, USDC) := Balance(row.available - amount, row.locked + amount)],
                           intents := x.db.intents[x.db.nextId := Order(amount, Open)], nextId := x.db.nextId + 1)
    ensures x'.h.origin == x.h.origin.(owner := x.h.origin.owner[x.db.nextId := 7])
  {
  }

  lemma AmendsToMinusOne(x: World, x': World)
    requires x' == Next(Exact, x, OnIntent(AmendCall(1, 7, Some(0xFFFF_FFFF_FFFF_FFFF), None, None)))
    requires 1 in x.db.intents && x.db.intents[1] == Order(50, Open) && (7, USDC) in x.db.balances
    ensures x'.db.intents == x.db.intents[1 := Order(-1, Open)] && x'.h.origin == x.h.origin
    ensures Row(x'.db.balances, 7, USDC).locked == x.db.balances[(7, USDC)].locked - 51
  {
  }

  // ---------------------------------------------------------------
  // A close after expiry
  // ---------------------------------------------------------------

  function Offer(): Bid { Bid("s", 100, 0, 0) }

  const FIRST_DEPOSIT: Step := OnBalance(DepositCall(7, USDC, 200))
  const SECOND_DEPOSIT: Step := OnBalance(DepositCall(9, ETH, 100))
  const BEGIN: Step := OnAuction(BeginCall(2))
  const EXPIRE: Step := OnIntent(ExpireCall(2, Some(7)))
  const BID: Step := OnAuction(BidCall(2, Offer(), true))
  const CLOSE: Step := OnAuction(CloseCall(2))
  const SETTLE: Step := OnSettle(EventCall(4, 2, 7, 9, Known(USDC), Known(ETH), 0.0))

  /** Account 7 opens two orders of 100; the first goes to auction, expires while it runs, and is closed and settled
      with account 9 all the same. */
  function ExpiredAuctionRun(): seq<Step> {
    [] + [FIRST_DEPOSIT] + [SECOND_DEPOSIT] + [Opens(100)] + [Opens(100)] + [BEGIN] + [EXPIRE] + [BID] + [CLOSE] + [SETTLE]
  }

  /** The settlement commits with the second order's lock: it is still open for 100 with nothing locked for it. */
  lemma ExpiredAuctionSpendsAnotherLock()
    ensures var x := After(ExpiredAuctionRun());
            && 4 in x.db.fills && x.db.fills[4].intent == 2 && x.db.fills[4].settled && 2 in x.h.origin.released
            && 3 in x.db.intents && x.db.intents[3] == Order(100, Open)
            && 3 !in x.h.origin.released && OwnerOf(x.h.origin, 3) == 7
            && Row(x.db.balances, 7, USDC).locked == 0
  {
    hide After, Next, Opens, Is;
    Empty();
    var x4 := FourSteps([], FIRST_DEPOSIT, SECOND_DEPOSIT, Opens(100), Opens(100));
    TwoOrders(After([]), x4);
    var s4 := [] + [FIRST_DEPOSIT] + [SECOND_DEPOSIT] + [Opens(100)] + [Opens(100)];
    var x8 := FourSteps(s4, BEGIN, EXPIRE, BID, CLOSE);
    BeginsAndExpires(x4, Next(Exact, Next(Exact, x4, BEGIN), EXPIRE));
    BidsAndCloses(Next(Exact, Next(Exact, x4, BEGIN), EXPIRE), x8);
    OneMoreStep(s4 + [BEGIN] + [EXPIRE] + [BID] + [CLOSE], SETTLE);
    SettlesFour(x8, Next(Exact, x8, SETTLE));
  }

  /** Four more calls. */
  lemma FourSteps(steps: seq<Step>, a: Step, b: Step, c: Step, d: Step) returns (x: World)
    ensures x == After(steps + [a] + [b] + [c] + [d])
    ensures x == Next(Exact, Next(Exact, Next(Exact, Next(Exact, After(steps), a), b), c), d)
  {
    hide After, Next;
    OneMoreStep(steps, a);
    OneMoreStep(steps + [a], b);
    OneMoreStep(steps + [a] + [b], c);
    OneMoreStep(steps + [a] + [b] + [c], d);
    x := After(steps + [a] + [b] + [c] + [d]);
  }

  lemma TwoOrders(x0: World, x4: World)
    requires Is(x0, map[], map[], map[], map[], 0, map[], {})
    requires x4 == Next(Exact, Next(Exact, Next(Exact, Next(Exact, x0, FIRST_DEPOSIT), SECOND_DEPOSIT), Opens(100)), Opens(100))
    ensures Is(x4, map[(7, USDC) := Balance(0, 200), (9, ETH) := Balance(100, 0)],
               map[2 := Order(100, Open), 3 := Order(100, Open)], map[], map[], 4, map[2 := 7, 3 := 7], {})
  {
    hide Next, Opens;
    var x1 := Next(Exact, x0, FIRST_DEPOSIT);
    var x2 := Next(Exact, x1, SECOND_DEPOSIT);
    var x3 := Next(Exact, x2, Opens(100));
    Deposits(x0, 7, USDC, 200, x1);
    Deposits(x1, 9, ETH, 100, x2);
    Creates(x2, 100, x3);
    Creates(x3, 100, x4);
  }

  lemma BeginsAndExpires(x4: World, x6: World)
    requires Is(x4, map[(7, USDC) := Balance(0, 200), (9, ETH) := Balance(100, 0)],
                map[2 := Order(100, Open), 3 := Order(100, Open)], map[], map[], 4, map[2 := 7, 3 := 7], {})
    requires x6 == Next(Exact, Next(Exact, x4, BEGIN), EXPIRE)
    ensures Is(x6, map[(7, USDC) := Balance(100, 100), (9, ETH) := Balance(100, 0)],
               map[2 := Order(100, Expired), 3 := Order(100, Open)], map[], map[], 4, map[2 := 7, 3 := 7], {2})
  {
  }

  lemma BidsAndCloses(x6: World, x8: World)
    requires Is(x6, map[(7, USDC) := Balance(100, 100), (9, ETH) := Balance(100, 0)],
                map[2 := Order(100, Expired), 3 := Order(100, Open)], map[], map[], 4, map[2 := 7, 3 := 7], {2})
    requires x8 == Next(Exact, Next(Exact, x6, BID), CLOSE)
    ensures Is(x8, map[(7, USDC) := Balance(100, 100), (9, ETH) := Balance(100, 0)],
               map[2 := Order(100, Matched), 3 := Order(100, Open)], map[2 := [Offer()]],
               map[4 := Fill(2, "s", 100, 100, 100, false)], 5, map[2 := 7, 3 := 7], {2})
  {
    var x7 := Next(Exact, x6, BID);
    assert BidsOf(x7.db, 2) == [Offer()] && SortBids([Offer()]) == [Offer()];
    assert AcceptedBids(x7.db, 2) == [Offer()];
    var d := Draft("s", 100, 100, 100);
    assert [Offer()][1..] == [] && GenerateFills(100, [Offer()]) == [d] && [d][1..] == [] && [d][..0] == [];
    assert TotalFilled([d]) == 100;
    OneFill(x7.db.fills, d);
  }

  lemma OneFill(fills: map<Id, Fill>, d: Draft)
    requires fills == map[]
    ensures InsertFills(fills, 2, [d], 4) == map[4 := Fill(2, d.solver, d.price, d.qty, d.filledQty, false)]
  {
    assert [d][1..] == [];
  }

  lemma SettlesFour(x8: World, x9: World)
    requires Is(x8, map[(7, USDC) := Balance(100, 100), (9, ETH) := Balance(100, 0)],
                map[2 := Order(100, Matched), 3 := Order(100, Open)], map[2 := [Offer()]],
                map[4 := Fill(2, "s", 100, 100, 100, false)], 5, map[2 := 7, 3 := 7], {2})
    requires x9 == Next(Exact, x8, SETTLE)
    ensures 4 in x9.db.fills && x9.db.fills[4].settled && x9.db.fills[4].intent == 2 && x9.h.origin == x8.h.origin
    ensures 3 in x9.db.intents && x9.db.intents[3] == Order(100, Open) && Row(x9.db.balances, 7, USDC).locked == 0
  {
    hide SettledQty;
    NoFee();
    var r := SettleFill(Exact, x8.db, 4, 7, 9, USDC, ETH, 0.0);
    assert r.outcome.Done? && Row(r.db.balances, 7, USDC).locked == 0 by { Pays(x8.db.balances); }
  }

  lemma NoFee()
    ensures TotalFee(100, 0.0) == 0 && SolverFee(0) == 0
  {
  }

  lemma Pays(b: Balances)
    requires b == map[(7, USDC) := Balance(100, 100), (9, ETH) := Balance(100, 0)]
    ensures var r := ChargeAndPay(Exact, b, 7, 9, PLATFORM, USDC, ETH, 100, 100, 0, 0);
            r.Some? && Row(r.value, 7, USDC).locked == 0
  {
  }
}
