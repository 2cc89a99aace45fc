/** Solver positions and their profit and loss (src/solver/positions.rs). */
module Positions {
  import opened Prelude

  datatype Position = Position(position: int, avgEntryPrice: int, realizedPnl: int)

  function Signum(x: int): int { if x < 0 then -1 else if x == 0 then 0 else 1 }

  predicate Adding(position: int, qty: int) { position + qty != 0 && (Signum(position) == Signum(qty) || position == 0) }

  function TotalCost(p: Position, qty: int, price: int): int { p.avgEntryPrice * Abs(p.position) + price * Abs(qty) }

  function NewAverage(p: Position, qty: int, price: int): int {
    var next := p.position + qty;
    if Adding(p.position, qty) then Quotient(TotalCost(p, qty, price), Abs(next))
    else if next == 0 then 0
    else p.avgEntryPrice
  }

  function ClosedQty(p: Position, qty: int): int {
    if Signum(p.position) != Signum(qty) then Min(Abs(qty), Abs(p.position)) else 0
  }

  function RecordFill(existing: Option<Position>, qty: int, price: int): Position {
    match existing
    case None => Position(qty, price, 0)
    case Some(p) =>
      Position(p.position + qty, NewAverage(p, qty, price), p.realizedPnl + ClosedQty(p, qty) * (price - p.avgEntryPrice))
  }

  function TotalPnl(p: Position, mark: int): int {
    (if p.position != 0 then p.position * (mark - p.avgEntryPrice) else 0) + p.realizedPnl
  }

  class Tracker {
    var row: Option<Position>

    constructor ()
      ensures row == None
    {
      row := None;
    }

    method Record(qty: int, price: int) returns (p: Position)
      modifies this
      ensures row == Some(p) && p == RecordFill(old(row), qty, price)
    {
      if row.None? {
        p := Position(qty, price, 0);
        row := Some(p);
        return;
      }
      var pos := row.value;
      var next := pos.position + qty;
      var avg;
      if next != 0 && (Signum(pos.position) == Signum(qty) || pos.position == 0) {
        var totalCost := pos.avgEntryPrice * Abs(pos.position) + price * Abs(qty);
        avg := Quotient(totalCost, Abs(next));
      } else if next == 0 {
        avg := 0;
      } else {
        avg := pos.avgEntryPrice;
      }
      var closed := if Signum(pos.position) != Signum(qty) then Min(Abs(qty), Abs(pos.position)) else 0;
      var realized := closed * (price - pos.avgEntryPrice);
      p := Position(next, avg, pos.realizedPnl + realized);
      row := Some(p);
    }
  }

  // ---------------------------------------------------------------
  // What was really earned
  // ---------------------------------------------------------------

  datatype Fill = Fill(qty: int, price: int)

  /** Money received less money paid. */
  function Cash(fills: seq<Fill>): int {
    if fills == [] then 0 else Cash(fills[..|fills| - 1]) - fills[|fills| - 1].qty * fills[|fills| - 1].price
  }

  function Flat(): Position { Position(0, 0, 0) }

  function Book(fills: seq<Fill>): Option<Position> {
    if fills == [] then None
    else Some(RecordFill(Book(fills[..|fills| - 1]), fills[|fills| - 1].qty, fills[|fills| - 1].price))
  }

  function Held(fills: seq<Fill>): Position { if Book(fills).Some? then Book(fills).value else Flat() }

  /** The true profit: the cash, and the position at the mark. */
  function TruePnl(fills: seq<Fill>, mark: int): int { Cash(fills) + Held(fills).position * mark }

  /** Reported minus true profit; no mark in it. */
  function Drift(p: Position, cash: int): int { p.realizedPnl - p.position * p.avgEntryPrice - cash }

  lemma DriftAtAnyMark(fills: seq<Fill>, mark: int)
    ensures TotalPnl(Held(fills), mark) - TruePnl(fills, mark) == Drift(Held(fills), Cash(fills))
  {
    hide Held, Cash;
    MarkCancels(Held(fills), Cash(fills), mark);
    hide TotalPnl, Drift;
  }

  lemma MarkCancels(p: Position, cash: int, mark: int)
    ensures TotalPnl(p, mark) - (cash + p.position * mark) == Drift(p, cash)
  {
    assert p.position * (mark - p.avgEntryPrice) == p.position * mark - p.position * p.avgEntryPrice;
  }

  /** What the division of an averaging fill drops. */
  function Dropped(p: Position, qty: int, price: int): int
    requires Adding(p.position, qty)
  {
    TotalCost(p, qty, price) - Abs(p.position + qty) * NewAverage(p, qty, price)
  }

  /** The change of the drift by one fill, in all cases, long and short. */
  lemma StepLaw(p: Position, qty: int, price: int, cash: int)
    ensures var p' := RecordFill(Some(p), qty, price);
            var change := Drift(p', cash - qty * price) - Drift(p, cash);
            && (Adding(p.position, qty) ==>
                  change == if p.position + qty > 0 then Dropped(p, qty, price) else -Dropped(p, qty, price))
            && (!Adding(p.position, qty) ==> change == (ClosedQty(p, qty) + qty) * (price - p.avgEntryPrice))
  {
    hide Quotient, Dropped, ClosedQty;
    if Adding(p.position, qty) {
      AddingLaw(p, qty, price);
      assert ClosedQty(p, qty) * (price - p.avgEntryPrice) == 0;
      hide NewAverage;
    } else {
      KeptAverage(p.position, p.avgEntryPrice, NewAverage(p, qty, price), qty, price, ClosedQty(p, qty));
      hide NewAverage;
    }
  }

  /** The products of a fill that leaves the average alone, or the position flat. */
  lemma KeptAverage(position: int, avg: int, avg': int, qty: int, price: int, closed: int)
    requires avg' == avg || position + qty == 0
    ensures closed * (price - avg) - (position + qty) * avg' + qty * price + position * avg == (closed + qty) * (price - avg)
  {
    assert (position + qty) * avg' == (position + qty) * avg == position * avg + qty * avg;
    assert (closed + qty) * (price - avg) == closed * (price - avg) + qty * price - qty * avg;
  }

  lemma AddingLaw(p: Position, qty: int, price: int)
    requires Adding(p.position, qty)
    ensures ClosedQty(p, qty) * (price - p.avgEntryPrice) == 0
    ensures var next := p.position + qty;
            var signed := if next > 0 then Dropped(p, qty, price) else -Dropped(p, qty, price);
            next * NewAverage(p, qty, price) == p.position * p.avgEntryPrice + qty * price - signed
  {
    var next, a := p.position + qty, NewAverage(p, qty, price);
    if next > 0 {
      assert Abs(next) == next && Abs(p.position) == p.position && Abs(qty) == qty;
    } else {
      assert Abs(next) == -next && Abs(p.position) == -p.position && Abs(qty) == -qty;
      assert -next * a == -(next * a);
      assert p.avgEntryPrice * -p.position == -(p.position * p.avgEntryPrice);
      assert price * -qty == -(qty * price);
    }
  }

  lemma DroppedBound(p: Position, qty: int, price: int)
    requires Adding(p.position, qty) && p.avgEntryPrice >= 0 && price >= 0
    ensures 0 <= Dropped(p, qty, price) < Abs(p.position + qty) && NewAverage(p, qty, price) >= 0
  {
    var cost, n := TotalCost(p, qty, price), Abs(p.position + qty);
    assert p.avgEntryPrice * Abs(p.position) >= 0 && price * Abs(qty) >= 0;
    Remainder(cost, n);
  }

  lemma Remainder(x: nat, n: nat)
    requires n > 0
    ensures 0 <= x - n * (x / n) < n && x / n >= 0
  {
    assert x == n * (x / n) + x % n;
  }

  /** A reducing fill is reported exactly when it closes part of a long position without flipping it, or happens at the
      average price. Covering a short is not: it books 2 q (price - average) too much. */
  lemma ReducingExactIff(p: Position, qty: int, price: int, cash: int)
    requires Signum(p.position) * Signum(qty) == -1
    ensures Drift(RecordFill(Some(p), qty, price), cash - qty * price) == Drift(p, cash)
            <==> price == p.avgEntryPrice || (p.position > 0 && -qty <= p.position)
    ensures p.position < 0 && qty <= -p.position ==>
              Drift(RecordFill(Some(p), qty, price), cash - qty * price) == Drift(p, cash) + 2 * qty * (price - p.avgEntryPrice)
  {
    StepLaw(p, qty, price, cash);
    var factor := ClosedQty(p, qty) + qty;
    assert factor * (price - p.avgEntryPrice) == 0 <==> factor == 0 || price == p.avgEntryPrice;
    hide RecordFill, Drift;
  }

  /** One fill on a row, said without the row's own helpers: the position moves by the quantity; what is realized is the
      price difference on the part by which the two cancel each other; the average is zero when flat, the cost per unit
      cut off when the position grows away from zero, and kept otherwise. */
  lemma FillEffect(p: Position, qty: int, price: int) returns (cancelled: nat)
    ensures 2 * cancelled == Abs(p.position) + Abs(qty) - Abs(p.position + qty)
    ensures var p' := RecordFill(Some(p), qty, price);
            var grows := p.position + qty != 0 && (p.position == 0 || (p.position > 0 && qty > 0) || (p.position < 0 && qty < 0));
            && p'.position == p.position + qty
            && p'.realizedPnl == p.realizedPnl + cancelled * (price - p.avgEntryPrice)
            && (p'.position == 0 ==> p'.avgEntryPrice == 0)
            && (p'.position != 0 && !grows ==> p'.avgEntryPrice == p.avgEntryPrice)
            && (grows && p.avgEntryPrice >= 0 && price >= 0 ==>
                  var cost := p.avgEntryPrice * Abs(p.position) + price * Abs(qty);
                  Abs(p'.position) * p'.avgEntryPrice <= cost < Abs(p'.position) * p'.avgEntryPrice + Abs(p'.position))
    ensures RecordFill(None, qty, price) == Position(qty, price, 0)
  {
    cancelled := ClosedQty(p, qty);
    CancelledQty(p.position, qty);
    var p' := RecordFill(Some(p), qty, price);
    assert p'.realizedPnl == p.realizedPnl + cancelled * (price - p.avgEntryPrice);
    if Adding(p.position, qty) && p.avgEntryPrice >= 0 && price >= 0 { DroppedBound(p, qty, price); }
    hide Quotient;
  }

  lemma CancelledQty(position: int, qty: int)
    ensures forall a, r :: 2 * ClosedQty(Position(position, a, r), qty) == Abs(position) + Abs(qty) - Abs(position + qty)
    ensures forall a, r :: ClosedQty(Position(position, a, r), qty) >= 0
  {
  }

  // ---------------------------------------------------------------
  // Runs
  // ---------------------------------------------------------------

  /** Prices are not negative and the position never is. */
  predicate LongOnly(fills: seq<Fill>) {
    fills == [] || (LongOnly(fills[..|fills| - 1]) && fills[|fills| - 1].price >= 0 && Held(fills).position >= 0)
  }

  /** New position less one, over the fills that increase the position. */
  function Allowance(fills: seq<Fill>): nat {
    if fills == [] then 0
    else Allowance(fills[..|fills| - 1])
         + if fills[|fills| - 1].qty > 0 && Held(fills).position > 0 then Held(fills).position - 1 else 0
  }

  lemma NothingYet()
    ensures Held([]) == Flat() && Drift(Held([]), Cash([])) == 0
  {
  }

  lemma {:induction false} DriftRun(fills: seq<Fill>)
    requires LongOnly(fills)
    ensures 0 <= Drift(Held(fills), Cash(fills)) <= Allowance(fills)
    ensures Held(fills).avgEntryPrice >= 0 && Held(fills).position >= 0
  {
    hide Held, Cash, Drift;
    if fills == [] {
      NothingYet();
    } else {
      var init, last := fills[..|fills| - 1], fills[|fills| - 1];
      DriftRun(init);
      LastFill(init, last, fills);
    }
  }

  /** For any long-only run from flat the reported profit exceeds the true one, at every mark, by at least nothing and
      at most the allowance, to which only increasing fills add. */
  lemma DriftBound(fills: seq<Fill>, mark: int)
    requires LongOnly(fills)
    ensures 0 <= TotalPnl(Held(fills), mark) - TruePnl(fills, mark) <= Allowance(fills)
  {
    hide Held, Cash, TruePnl, TotalPnl, Drift, Allowance, LongOnly;
    DriftRun(fills);
    DriftAtAnyMark(fills, mark);
  }

  lemma LaterFill(p: Position, qty: int, price: int, cash: int)
    requires p.avgEntryPrice >= 0 && p.position >= 0 && price >= 0 && p.position + qty >= 0
    ensures var p' := RecordFill(Some(p), qty, price);
            && 0 <= Drift(p', cash - qty * price) - Drift(p, cash) <= (if qty > 0 then p.position + qty - 1 else 0)
            && p'.position == p.position + qty && p'.avgEntryPrice >= 0
  {
    StepLaw(p, qty, price, cash);
    assert RecordFill(Some(p), qty, price).position == p.position + qty;
    assert RecordFill(Some(p), qty, price).avgEntryPrice == NewAverage(p, qty, price);
    hide RecordFill, Drift, Dropped;
    if Adding(p.position, qty) {
      DroppedBound(p, qty, price);
      hide NewAverage;
    } else {
      assert ClosedQty(p, qty) + qty == 0;
    }
  }

  /** The row and the cash after one more fill. */
  lemma OneMore(init: seq<Fill>, last: Fill, fills: seq<Fill>)
    requires fills != [] && init == fills[..|fills| - 1] && last == fills[|fills| - 1]
    ensures Held(fills) == RecordFill(Book(init), last.qty, last.price)
    ensures Cash(fills) == Cash(init) - last.qty * last.price
    ensures Book(init).Some? ==> Book(init) == Some(Held(init))
    ensures Book(init).None? ==> Held(init) == Flat() && Cash(init) == 0
  {
    hide RecordFill;
  }

  lemma LastFill(init: seq<Fill>, last: Fill, fills: seq<Fill>)
    requires fills != [] && init == fills[..|fills| - 1] && last == fills[|fills| - 1]
    requires Held(init).avgEntryPrice >= 0 && Held(init).position >= 0 && last.price >= 0 && Held(fills).position >= 0
    ensures var change := Drift(Held(fills), Cash(fills)) - Drift(Held(init), Cash(init));
            0 <= change <= if last.qty > 0 then Held(fills).position - 1 else 0
    ensures Held(fills).avgEntryPrice >= 0
    ensures last.qty > 0 ==> Held(fills).position > 0
  {
    hide Held, Cash, Book, Drift, NewAverage, ClosedQty;
    OneMore(init, last, fills);
    var p := Held(init);
    if Book(init).Some? {
      assert Held(fills).position == p.position + last.qty;
      hide RecordFill;
      LaterFill(p, last.qty, last.price, Cash(init));
    } else {
      FirstDrift(last.qty, last.price);
    }
  }

  lemma FirstDrift(qty: int, price: int)
    ensures Drift(RecordFill(None, qty, price), 0 - qty * price) == 0 == Drift(Flat(), 0)
  {
  }
}
