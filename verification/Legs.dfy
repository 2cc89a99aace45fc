/** Cross-chain settlements of two legs, and the worker that moves them. What the bridge answers, and which rows a
    query returns where several would do, are parameters. (src/cross_chain/worker.rs, src/cross_chain/service.rs) */
module Legs {
  import opened Prelude

  datatype Status = Pending | Escrowed | Executing | Confirmed | Failed | Refunded

  datatype Side = Source | Destination

  type Id = nat

  /** (fill, side) identifies a leg: the table has a unique key on fill_id and leg_index. */
  type Key = (Id, Side)

  datatype Leg = Leg(intent: Id, status: Status, txHash: Option<string>, error: Option<string>, timeoutAt: int)

  type LegTable = map<Key, Leg>

  const LIMIT: nat := 50
  const DEFAULT_TIMEOUT_SECS: int := 600

  function Other(k: Key): Key { (k.0, if k.1.Source? then Destination else Source) }

  predicate Resolved(s: Status) { s.Confirmed? || s.Refunded? }

  // ---------------------------------------------------------------
  // Phases 1 to 3: ask the bridge about each selected leg
  // ---------------------------------------------------------------

  datatype Phase = LockSources | VerifyEscrowed | ReleaseDestinations

  /** What came of asking: nothing (no bridge, no verdict yet, or the update did not get through), success, or failure. */
  datatype Answer = Nothing | Success(txHash: string) | Failure(error: string)

  /** The rows the phase's query looks for. */
  predicate Ready(p: Phase, legs: LegTable, k: Key) {
    && k in legs
    && match p
       case LockSources => k.1.Source? && legs[k].status.Pending?
       case VerifyEscrowed => k.1.Source? && legs[k].status.Escrowed?
       case ReleaseDestinations =>
         && k.1.Destination? && legs[k].status.Pending?
         && Other(k) in legs && (legs[Other(k)].status.Escrowed? || legs[Other(k)].status.Confirmed?)
  }

  function Advance(p: Phase, leg: Leg, a: Answer): Leg {
    if a.Nothing? || (p.VerifyEscrowed? && leg.txHash.None?) then leg
    else if a.Failure? then leg.(status := Failed, error := Some(a.error))
    else
      match p
      case LockSources => leg.(status := Escrowed, txHash := Some(a.txHash))
      case VerifyEscrowed => leg.(status := Confirmed)
      case ReleaseDestinations => leg.(status := Executing, txHash := Some(a.txHash))
  }

  /** A leg without its counterpart is passed over. */
  function AdvanceOne(p: Phase, legs: LegTable, k: Key, a: Answer): LegTable {
    if k in legs && Other(k) in legs then legs[k := Advance(p, legs[k], a)] else legs
  }

  function AdvanceAll(p: Phase, legs: LegTable, rows: seq<Key>, answers: seq<Answer>): LegTable
    requires |rows| == |answers|
  {
    if rows == [] then legs
    else AdvanceOne(p, AdvanceAll(p, legs, rows[..|rows| - 1], answers[..|rows| - 1]), rows[|rows| - 1], answers[|rows| - 1])
  }

  // ---------------------------------------------------------------
  // Phase 4: refund what is overdue
  // ---------------------------------------------------------------

  predicate Overdue(legs: LegTable, k: Key, now: int) { k in legs && legs[k].timeoutAt < now && !Resolved(legs[k].status) }

  function Refunds(leg: Leg): Leg { leg.(status := Refunded, error := Some("Timeout refund")) }

  function Refund(legs: LegTable, k: Key): LegTable {
    if k in legs then legs[k := Refunds(legs[k])] else legs
  }

  /** A source leg that was Escrowed when selected takes its unfinished destination with it. */
  function RefundOne(selected: LegTable, legs: LegTable, k: Key): LegTable {
    var refunded := Refund(legs, k);
    var d := Other(k);
    if k in legs && k.1.Source? && k in selected && selected[k].status.Escrowed? && d in refunded
       && (refunded[d].status.Pending? || refunded[d].status.Executing?)
    then Refund(refunded, d) else refunded
  }

  function RefundAll(selected: LegTable, legs: LegTable, rows: seq<Key>): LegTable {
    if rows == [] then legs
    else RefundOne(selected, RefundAll(selected, legs, rows[..|rows| - 1]), rows[|rows| - 1])
  }

  predicate NoRepeats(rows: seq<Key>) { forall i, j :: 0 <= i < j < |rows| ==> rows[i] != rows[j] }

  /** An answer to the timeout query: at most 50 overdue legs, the earliest timeouts first, and fewer than 50 only
      when there are no more. Ties may fall either way. */
  ghost predicate OverdueSelection(legs: LegTable, now: int, rows: seq<Key>) {
    && NoRepeats(rows) && |rows| <= LIMIT
    && (forall i :: 0 <= i < |rows| ==> Overdue(legs, rows[i], now))
    && (forall k :: Overdue(legs, k, now) && k !in rows ==>
          |rows| == LIMIT && forall i :: 0 <= i < |rows| ==> legs[rows[i]].timeoutAt <= legs[k].timeoutAt)
  }

  // ---------------------------------------------------------------
  // Phase 5: finalize
  // ---------------------------------------------------------------

  predicate BothConfirmed(legs: LegTable, fill: Id) {
    && (fill, Source) in legs && legs[(fill, Source)].status.Confirmed?
    && (fill, Destination) in legs && legs[(fill, Destination)].status.Confirmed?
  }

  /** `completed` are the intents marked completed, `finalized` the fills whose confirmation marked them. */
  datatype Net = Net(legs: LegTable, completed: set<Id>, finalized: set<Id>, clock: int)

  function FinalizeOne(net: Net, fill: Id): Net {
    if (fill, Source) !in net.legs || net.legs[(fill, Source)].intent in net.completed then net
    else net.(completed := net.completed + {net.legs[(fill, Source)].intent}, finalized := net.finalized + {fill})
  }

  function FinalizeAll(net: Net, fills: seq<Id>): Net {
    if fills == [] then net else FinalizeOne(FinalizeAll(net, fills[..|fills| - 1]), fills[|fills| - 1])
  }

  // ---------------------------------------------------------------
  // Creation and the outside world
  // ---------------------------------------------------------------

  function NewLeg(intent: Id, now: int): Leg { Leg(intent, Pending, None, None, now + DEFAULT_TIMEOUT_SECS) }

  function CreateSettlement(legs: LegTable, fill: Id, intent: Id, now: int): LegTable {
    if (fill, Source) in legs || (fill, Destination) in legs then legs
    else legs[(fill, Source) := NewLeg(intent, now)][(fill, Destination) := NewLeg(intent, now)]
  }

  // ---------------------------------------------------------------
  // The worker's loops
  // ---------------------------------------------------------------

  class Worker {
    var legs: LegTable
    var completed: set<Id>
    ghost var finalized: set<Id>

    constructor ()
      ensures legs == map[] && completed == {} && finalized == {}
    {
      legs, completed, finalized := map[], {}, {};
    }

    /** `update_leg_status`: a missing hash or error keeps the old one, and an unknown leg is reported. */
    method UpdateLegStatus(k: Key, status: Status, txHash: Option<string>, error: Option<string>) returns (found: bool)
      modifies this`legs
      ensures found == (k in old(legs))
      ensures legs == if !found then old(legs)
                      else
                        var leg := old(legs)[k];
                        old(legs)[k := leg.(status := status, txHash := if txHash.Some? then txHash else leg.txHash,
                                            error := if error.Some? then error else leg.error)]
    {
      if k !in legs { return false; }
      var leg := legs[k];
      leg := leg.(status := status, txHash := if txHash.Some? then txHash else leg.txHash);
      legs := legs[k := leg.(error := if error.Some? then error else leg.error)];
      return true;
    }

    method AskBridge(p: Phase, rows: seq<Key>, answers: seq<Answer>) returns (n: nat)
      requires |rows| == |answers|
      modifies this`legs
      ensures legs == AdvanceAll(p, old(legs), rows, answers)
      ensures n <= |rows|
    {
      n := 0;
      for i := 0 to |rows|
        invariant legs == AdvanceAll(p, old(legs), rows[..i], answers[..i]) && n <= i
      {
        var k, a := rows[i], answers[i];
        ghost var before := legs;
        assert rows[..i + 1][..i] == rows[..i] && answers[..i + 1][..i] == answers[..i];
        if k in legs && Other(k) in legs && !a.Nothing? && !(p.VerifyEscrowed? && legs[k].txHash.None?) {
          if a.Failure? {
            var _ := UpdateLegStatus(k, Failed, None, Some(a.error));
          } else {
            var found;
            match p {
              case LockSources => found := UpdateLegStatus(k, Escrowed, Some(a.txHash), None);
              case VerifyEscrowed => found := UpdateLegStatus(k, Confirmed, None, None);
              case ReleaseDestinations => found := UpdateLegStatus(k, Executing, Some(a.txHash), None);
            }
            if found { n := n + 1; }
          }
        }
        assert legs == AdvanceOne(p, before, k, a);
      }
      assert rows[..|rows|] == rows && answers[..|rows|] == answers;
    }

    method ProcessTimeouts(rows: seq<Key>)
      modifies this`legs
      ensures legs == RefundAll(old(legs), old(legs), rows)
    {
      var selected := legs;
      for i := 0 to |rows|
        invariant legs == RefundAll(selected, selected, rows[..i])
      {
        var k := rows[i];
        assert rows[..i + 1][..i] == rows[..i];
        var found := UpdateLegStatus(k, Refunded, None, Some("Timeout refund"));
        if !found { continue; }
        if k.1.Source? && k in selected && selected[k].status.Escrowed? {
          var d := Other(k);
          if d in legs && (legs[d].status.Pending? || legs[d].status.Executing?) {
            var _ := UpdateLegStatus(d, Refunded, None, Some("Timeout refund"));
          }
        }
      }
      assert rows[..|rows|] == rows;
    }

    ghost function View(clock: int): Net
      reads this
    {
      Net(legs, completed, finalized, clock)
    }

    method FinalizeCompleted(fills: seq<Id>, ghost clock: int)
      modifies this`completed, this`finalized
      ensures View(clock) == FinalizeAll(old(View(clock)), fills)
    {
      for i := 0 to |fills|
        invariant View(clock) == FinalizeAll(old(View(clock)), fills[..i])
      {
        assert fills[..i + 1][..i] == fills[..i];
        var k := (fills[i], Source);
        if k in legs && legs[k].intent !in completed {
          completed := completed + {legs[k].intent};
          finalized := finalized + {fills[i]};
        }
      }
      assert fills[..|fills|] == fills;
    }
  }
}
