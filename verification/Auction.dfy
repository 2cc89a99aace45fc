/** The sealed-bid auction: ranking, limit filter and greedy splitting of an order into fills
    (src/engine/auction_engine.rs, src/services/bid_service.rs). */
module Auction {
  import opened Prelude

  const I64_MAX: int := 0x7FFF_FFFF_FFFF_FFFF
  const I64_MIN: int := -0x8000_0000_0000_0000

  datatype OrderType = Market | Limit | Stop

  datatype Bid = Bid(solver: string, amountOut: int, fee: int, timestamp: int)

  /** One row for `fills`, before it gets an id: price, qty and filled_qty of `Fill::new`. */
  datatype Draft = Draft(solver: string, price: int, qty: int, filledQty: int)

  function Clamp64(x: int): (r: int)
    ensures I64_MIN <= r <= I64_MAX
    ensures I64_MIN <= x <= I64_MAX ==> r == x
  {
    if x < I64_MIN then I64_MIN else if x > I64_MAX then I64_MAX else x
  }

  /** `amount_out.saturating_sub(fee)` */
  function Net(b: Bid): int { Clamp64(b.amountOut - b.fee) }

  /** The comparator of both sorts: higher net first, then earlier timestamp; true on ties. */
  predicate Ranks(a: Bid, b: Bid) {
    Net(a) > Net(b) || (Net(a) == Net(b) && a.timestamp <= b.timestamp)
  }

  predicate SameRank(a: Bid, b: Bid) { Net(a) == Net(b) && a.timestamp == b.timestamp }

  ghost predicate Ranked(s: seq<Bid>) {
    forall i, j :: 0 <= i < j < |s| ==> Ranks(s[i], s[j])
  }

  // ---------------------------------------------------------------
  // Ranking
  // ---------------------------------------------------------------

  /** Insert in front of the first bid it ranks with or above; later bids were submitted later. */
  function InsertBid(b: Bid, s: seq<Bid>): (r: seq<Bid>)
    ensures multiset(r) == multiset(s) + multiset{b}
  {
    if s == [] then [b]
    else if Ranks(b, s[0]) then [b] + s
    else
      assert s == [s[0]] + s[1..];
      [s[0]] + InsertBid(b, s[1..])
  }

  /** `Vec::sort_by`: a stable sort. */
  function SortBids(s: seq<Bid>): (r: seq<Bid>)
    ensures multiset(r) == multiset(s)
  {
    if s == [] then []
    else
      assert s == [s[0]] + s[1..];
      InsertBid(s[0], SortBids(s[1..]))
  }

  lemma {:induction false} InsertRanked(b: Bid, s: seq<Bid>)
    requires Ranked(s)
    ensures Ranked(InsertBid(b, s))
  {
    if s != [] && !Ranks(b, s[0]) {
      var tail := InsertBid(b, s[1..]);
      InsertRanked(b, s[1..]);
      forall j | 0 <= j < |tail| ensures Ranks(s[0], tail[j]) {
        assert tail[j] in multiset(tail);
        assert tail[j] == b || tail[j] in s[1..];
      }
    }
  }

  lemma {:induction false} SortRanked(s: seq<Bid>)
    ensures Ranked(SortBids(s))
  {
    if s != [] {
      SortRanked(s[1..]);
      InsertRanked(s[0], SortBids(s[1..]));
    }
  }

  /** The bids of one rank, in order: what stability keeps. */
  function Peers(s: seq<Bid>, b: Bid): seq<Bid> {
    if s == [] then []
    else (if SameRank(s[0], b) then [s[0]] else []) + Peers(s[1..], b)
  }

  lemma {:induction false} InsertStable(b: Bid, s: seq<Bid>, c: Bid)
    ensures Peers(InsertBid(b, s), c) == (if SameRank(b, c) then [b] else []) + Peers(s, c)
  {
    if s == [] {
    } else if Ranks(b, s[0]) {
      assert ([b] + s)[1..] == s;
    } else {
      InsertStable(b, s[1..], c);
      assert InsertBid(b, s)[1..] == InsertBid(b, s[1..]);
    }
  }

  /** Sorting never reorders bids with the same net value and timestamp. */
  lemma {:induction false} SortStable(s: seq<Bid>, c: Bid)
    ensures Peers(SortBids(s), c) == Peers(s, c)
  {
    if s != [] {
      SortStable(s[1..], c);
      InsertStable(s[0], SortBids(s[1..]), c);
    }
  }

  // ---------------------------------------------------------------
  // Order-type filter
  // ---------------------------------------------------------------

  function Threshold(limitPrice: Option<int>): int { if limitPrice.Some? then limitPrice.value else 0 }

  function KeepAtLeast(s: seq<Bid>, limit: int): seq<Bid> {
    if s == [] then []
    else (if Net(s[0]) >= limit then [s[0]] else []) + KeepAtLeast(s[1..], limit)
  }

  function FilterBids(orderType: OrderType, limitPrice: Option<int>, bids: seq<Bid>): seq<Bid> {
    if orderType.Limit? then KeepAtLeast(bids, Threshold(limitPrice)) else bids
  }

  lemma {:induction false} KeepNone(s: seq<Bid>, limit: int)
    requires forall i :: 0 <= i < |s| ==> Net(s[i]) < limit
    ensures KeepAtLeast(s, limit) == []
  {
    if s != [] {
      KeepNone(s[1..], limit);
    }
  }

  /** On a ranked list the limit filter is a cut: it keeps a prefix, and what it drops is below the limit. */
  lemma {:induction false} FilterIsPrefix(orderType: OrderType, limitPrice: Option<int>, s: seq<Bid>)
    requires Ranked(s)
    ensures var kept := FilterBids(orderType, limitPrice, s);
            && kept <= s
            && (orderType.Limit? ==> forall i :: 0 <= i < |s| ==> (i < |kept| <==> Net(s[i]) >= Threshold(limitPrice)))
  {
    if orderType.Limit? && s != [] {
      if Net(s[0]) >= Threshold(limitPrice) {
        FilterIsPrefix(orderType, limitPrice, s[1..]);
        var kept, rest := FilterBids(orderType, limitPrice, s), FilterBids(orderType, limitPrice, s[1..]);
        assert kept == [s[0]] + rest;
        forall i | 0 <= i < |s| ensures i < |kept| <==> Net(s[i]) >= Threshold(limitPrice) {
          if 0 < i { assert s[i] == s[1..][i - 1]; }
        }
      } else {
        KeepNone(s, Threshold(limitPrice));
      }
    }
  }

  // ---------------------------------------------------------------
  // Greedy fills
  // ---------------------------------------------------------------

  /** What the loop of `generate_partial_fills` produces from `remaining` and the bids still ahead. */
  function GenerateFills(remaining: int, bids: seq<Bid>): seq<Draft> {
    if bids == [] || remaining <= 0 then []
    else
      var qty := Min(remaining, Net(bids[0]));
      if qty <= 0 then GenerateFills(remaining, bids[1..])
      else [Draft(bids[0].solver, bids[0].amountOut, Net(bids[0]), qty)] + GenerateFills(remaining - qty, bids[1..])
  }

  method GeneratePartialFills(amountIn: int, bids: seq<Bid>) returns (fills: seq<Draft>)
    ensures fills == GenerateFills(amountIn, bids)
  {
    var remaining := amountIn;
    fills := [];
    for i := 0 to |bids|
      invariant fills + GenerateFills(remaining, bids[i..]) == GenerateFills(amountIn, bids)
    {
      if remaining <= 0 {
        return;
      }
      var net := Net(bids[i]);
      var qty := Min(remaining, net);
      assert bids[i..][1..] == bids[i + 1..];
      if qty <= 0 {
        continue;
      }
      fills := fills + [Draft(bids[i].solver, bids[i].amountOut, net, qty)];
      remaining := remaining - qty;
    }
  }

  function TotalFilled(fills: seq<Draft>): int {
    if fills == [] then 0 else fills[0].filledQty + TotalFilled(fills[1..])
  }

  function PositiveNets(bids: seq<Bid>): nat {
    if bids == [] then 0 else (if Net(bids[0]) > 0 then Net(bids[0]) else 0) + PositiveNets(bids[1..])
  }

  /** The fills take exactly what was asked for or, short of that, everything the bids offer. */
  lemma {:induction false} FillsSum(remaining: nat, bids: seq<Bid>)
    ensures TotalFilled(GenerateFills(remaining, bids)) == Min(remaining, PositiveNets(bids))
  {
    if bids != [] && remaining > 0 {
      var qty := Min(remaining, Net(bids[0]));
      FillsSum(if qty <= 0 then remaining else remaining - qty, bids[1..]);
    }
  }

  /** Every fill is positive and within its bid, and only the last one is cut short. */
  ghost predicate WholeButLast(fills: seq<Draft>) {
    && (forall j :: 0 <= j < |fills| ==> 0 < fills[j].filledQty <= fills[j].qty)
    && (forall j :: 0 <= j < |fills| - 1 ==> fills[j].filledQty == fills[j].qty)
  }

  lemma {:induction false} FillsWhole(remaining: int, bids: seq<Bid>)
    ensures WholeButLast(GenerateFills(remaining, bids))
  {
    if bids != [] && remaining > 0 {
      var qty := Min(remaining, Net(bids[0]));
      if qty <= 0 {
        FillsWhole(remaining, bids[1..]);
        assert GenerateFills(remaining, bids) == GenerateFills(remaining, bids[1..]);
      } else {
        FillsWhole(remaining - qty, bids[1..]);
        var rest := GenerateFills(remaining - qty, bids[1..]);
        var fills := GenerateFills(remaining, bids);
        assert fills == [Draft(bids[0].solver, bids[0].amountOut, Net(bids[0]), qty)] + rest;
        assert qty < Net(bids[0]) ==> rest == [];
      }
    }
  }

  lemma {:induction false} NoFills(remaining: int, bids: seq<Bid>)
    requires forall j :: 0 <= j < |bids| ==> Net(bids[j]) <= 0
    ensures GenerateFills(remaining, bids) == []
  {
    if bids != [] && remaining > 0 {
      NoFills(remaining, bids[1..]);
    }
  }

  /** On a ranked list fill number j comes from bid number j, so no unused bid ranks above a used one. */
  lemma {:induction false} FillsFollowRank(remaining: int, bids: seq<Bid>)
    requires Ranked(bids)
    ensures var fills := GenerateFills(remaining, bids);
            && |fills| <= |bids|
            && (forall j :: 0 <= j < |fills| ==>
                  fills[j].solver == bids[j].solver && fills[j].price == bids[j].amountOut && fills[j].qty == Net(bids[j]))
  {
    if bids != [] && remaining > 0 {
      var qty := Min(remaining, Net(bids[0]));
      if qty <= 0 {
        NoFills(remaining, bids);
      } else {
        FillsFollowRank(remaining - qty, bids[1..]);
      }
    }
  }

  // ---------------------------------------------------------------
  // No cover of the order is smaller than the greedy one
  // ---------------------------------------------------------------

  function CountChosen(mask: seq<bool>): nat {
    if mask == [] then 0 else (if mask[0] then 1 else 0) + CountChosen(mask[1..])
  }

  /** The value of a subset of the bids, given as a mask over them. */
  function ChosenNet(bids: seq<Bid>, mask: seq<bool>): int
    requires |mask| == |bids|
  {
    if bids == [] then 0 else (if mask[0] then Net(bids[0]) else 0) + ChosenNet(bids[1..], mask[1..])
  }

  function PrefixNet(bids: seq<Bid>, n: nat): int
    requires n <= |bids|
  {
    if n == 0 then 0 else Net(bids[0]) + PrefixNet(bids[1..], n - 1)
  }

  lemma {:induction false} ShiftedPrefix(bids: seq<Bid>, n: nat)
    requires Ranked(bids) && n < |bids|
    ensures PrefixNet(bids[1..], n) <= PrefixNet(bids, n)
  {
    if n > 0 {
      ShiftedPrefix(bids[1..], n - 1);
    }
  }

  lemma {:induction false} CountBound(mask: seq<bool>)
    ensures CountChosen(mask) <= |mask|
  {
    if mask != [] { CountBound(mask[1..]); }
  }

  /** Exchange argument: the n best bids are worth at least as much as any n bids. */
  lemma {:induction false} BestPrefix(bids: seq<Bid>, mask: seq<bool>)
    requires Ranked(bids) && |mask| == |bids|
    ensures CountChosen(mask) <= |bids|
    ensures ChosenNet(bids, mask) <= PrefixNet(bids, CountChosen(mask))
  {
    CountBound(mask);
    if bids != [] {
      BestPrefix(bids[1..], mask[1..]);
      if !mask[0] {
        ShiftedPrefix(bids, CountChosen(mask[1..]));
      }
    }
  }

  /** Before the last fill the order was still open. */
  lemma {:induction false} FillsBeforeLast(remaining: int, bids: seq<Bid>, n: nat)
    requires Ranked(bids) && n < |GenerateFills(remaining, bids)|
    ensures n < |bids|
    ensures PrefixNet(bids, n) < remaining
  {
    FillsFollowRank(remaining, bids);
    if n > 0 {
      var qty := Min(remaining, Net(bids[0]));
      if qty <= 0 {
        NoFills(remaining, bids);
      } else {
        FillsBeforeLast(remaining - qty, bids[1..], n - 1);
      }
    }
  }

  /** Greedy optimality: no subset of the bids that covers the order has fewer members than the fills. */
  lemma GreedyFewestSolvers(amountIn: int, bids: seq<Bid>, mask: seq<bool>)
    requires Ranked(bids) && |mask| == |bids|
    requires ChosenNet(bids, mask) >= amountIn
    ensures |GenerateFills(amountIn, bids)| <= CountChosen(mask)
  {
    var fills := GenerateFills(amountIn, bids);
    var m := CountChosen(mask);
    BestPrefix(bids, mask);
    if m < |fills| {
      FillsBeforeLast(amountIn, bids, m);
    }
  }

  // ---------------------------------------------------------------
  // Published match and best bid
  // ---------------------------------------------------------------

  /** The first bid of a solver. */
  function FindSolver(bids: seq<Bid>, solver: string): Option<Bid> {
    if bids == [] then None
    else if bids[0].solver == solver then Some(bids[0])
    else FindSolver(bids[1..], solver)
  }

  /** Whenever an auction yields fills, the bid published as matched is the top bid of the sorted list. */
  lemma MatchedIsBest(amountIn: int, orderType: OrderType, limitPrice: Option<int>, submitted: seq<Bid>)
    ensures var sorted := SortBids(submitted);
            var bids := FilterBids(orderType, limitPrice, sorted);
            var fills := GenerateFills(amountIn, bids);
            fills != [] ==> bids != [] && bids[0] == sorted[0] && FindSolver(bids, fills[0].solver) == Some(sorted[0])
  {
    var sorted := SortBids(submitted);
    SortRanked(submitted);
    FilterIsPrefix(orderType, limitPrice, sorted);
    var bids := FilterBids(orderType, limitPrice, sorted);
    assert forall i :: 0 <= i < |bids| ==> bids[i] == sorted[i];
    FillsFollowRank(amountIn, bids);
  }

  /** `max_by` keeps the later of two bids that compare equal. */
  function MaxBid(best: Bid, rest: seq<Bid>): Bid
    decreases |rest|
  {
    if rest == [] then best
    else MaxBid(if Ranks(best, rest[0]) && !SameRank(best, rest[0]) then best else rest[0], rest[1..])
  }

  method GetBestBid(bids: seq<Bid>) returns (best: Option<Bid>)
    ensures best == if bids == [] then None else Some(MaxBid(bids[0], bids[1..]))
  {
    if bids == [] {
      return None;
    }
    var top := bids[0];
    for i := 1 to |bids|
      invariant MaxBid(top, bids[i..]) == MaxBid(bids[0], bids[1..])
    {
      assert bids[i..][1..] == bids[i + 1..];
      if !(Ranks(top, bids[i]) && !SameRank(top, bids[i])) {
        top := bids[i];
      }
    }
    return Some(top);
  }

  lemma {:induction false} MaxBidRanks(best: Bid, rest: seq<Bid>)
    ensures var m := MaxBid(best, rest);
            && (m == best || m in rest)
            && Ranks(m, best) && forall i :: 0 <= i < |rest| ==> Ranks(m, rest[i])
    decreases |rest|
  {
    if rest != [] {
      var next := if Ranks(best, rest[0]) && !SameRank(best, rest[0]) then best else rest[0];
      MaxBidRanks(next, rest[1..]);
      var m := MaxBid(best, rest);
      assert Ranks(m, next) && Ranks(next, best) && Ranks(next, rest[0]);
      forall i | 0 <= i < |rest| ensures Ranks(m, rest[i]) {
        if i > 0 { assert rest[i] == rest[1..][i - 1]; }
      }
    }
  }

  /** Bid `k` is a best one, and every bid behind it is strictly worse. */
  ghost predicate LastBest(bids: seq<Bid>, k: nat) {
    k < |bids| && (forall i :: 0 <= i < |bids| ==> Ranks(bids[k], bids[i]))
    && forall i :: k < i < |bids| ==> !SameRank(bids[k], bids[i])
  }

  /** Of equal best bids the last one is chosen. */
  lemma {:induction false} MaxBidLast(best: Bid, rest: seq<Bid>)
    ensures exists k: nat :: LastBest([best] + rest, k) && ([best] + rest)[k] == MaxBid(best, rest)
    decreases |rest|
  {
    var bids := [best] + rest;
    if rest == [] {
      assert LastBest(bids, 0);
    } else {
      var keeps := Ranks(best, rest[0]) && !SameRank(best, rest[0]);
      var next := if keeps then best else rest[0];
      MaxBidLast(next, rest[1..]);
      var tail := [next] + rest[1..];
      var k: nat :| LastBest(tail, k) && tail[k] == MaxBid(next, rest[1..]);
      assert forall i :: 1 <= i < |tail| ==> tail[i] == bids[i + 1];
      assert Ranks(tail[k], tail[0]);
      var at := if k == 0 && keeps then 0 else k + 1;
      assert bids[at] == tail[k];
      forall i | 0 <= i < |bids|
        ensures Ranks(bids[at], bids[i]) && (at < i ==> !SameRank(bids[at], bids[i]))
      {
        if i >= 2 { assert bids[i] == tail[i - 1]; }
      }
      assert LastBest(bids, at);
    }
  }

  lemma BestBidIsLastBest(bids: seq<Bid>)
    requires bids != []
    ensures exists k: nat :: LastBest(bids, k) && bids[k] == MaxBid(bids[0], bids[1..])
  {
    MaxBidLast(bids[0], bids[1..]);
    assert [bids[0]] + bids[1..] == bids;
  }

  /** `get_best_bid` and the head of `build_orderbook` agree on net value and timestamp. */
  lemma BestBidHeadsOrderbook(bids: seq<Bid>)
    requires bids != []
    ensures |SortBids(bids)| == |bids|
    ensures SameRank(MaxBid(bids[0], bids[1..]), SortBids(bids)[0])
  {
    var m, sorted := MaxBid(bids[0], bids[1..]), SortBids(bids);
    MaxBidRanks(bids[0], bids[1..]);
    SortRanked(bids);
    assert |multiset(sorted)| == |multiset(bids)|;
    assert m in multiset(bids) && m in multiset(sorted);
    var j :| 0 <= j < |sorted| && sorted[j] == m;
    assert sorted[0] in multiset(bids);
    var i :| 0 <= i < |bids| && bids[i] == sorted[0];
    assert i > 0 ==> bids[i] == bids[1..][i - 1];
  }
}
