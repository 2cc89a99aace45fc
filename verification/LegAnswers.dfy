/** What the worker does with each answer of the bridge, leg by leg, and what a leg's status says about the answers that
    were given: no source is escrowed and no destination submitted without the bridge having said so. */
module LegAnswers {
  import opened Prelude
  import opened Legs
  import opened LegSafety

  // ---------------------------------------------------------------
  // One phase
  // ---------------------------------------------------------------

  /** A leg that was selected with answer `a`, before and after. */
  ghost predicate Answered(p: Phase, leg: Leg, a: Answer, leg': Leg) {
    match a
    case Nothing => leg' == leg
    case Failure(error) =>
      if p.VerifyEscrowed? && leg.txHash.None? then leg' == leg
      else leg'.status.Failed? && leg'.error == Some(error) && leg' == leg.(status := leg'.status, error := leg'.error)
    case Success(txHash) =>
      match p
      case LockSources =>
        leg'.status.Escrowed? && leg'.txHash == Some(txHash) && leg' == leg.(status := leg'.status, txHash := leg'.txHash)
      case VerifyEscrowed =>
        if leg.txHash.None? then leg' == leg else leg'.status.Confirmed? && leg' == leg.(status := leg'.status)
      case ReleaseDestinations =>
        leg'.status.Executing? && leg'.txHash == Some(txHash) && leg' == leg.(status := leg'.status, txHash := leg'.txHash)
  }

  /** Failed exactly on a failure, and the phase's own good status exactly on a success; in phase 2 only with a hash. */
  ghost predicate VerdictIs(p: Phase, leg: Leg, a: Answer, leg': Leg) {
    var heard := !(p.VerifyEscrowed? && leg.txHash.None?);
    && (leg'.status.Failed? <==> a.Failure? && heard)
    && (p.LockSources? ==> (leg'.status.Escrowed? <==> a.Success?))
    && (p.VerifyEscrowed? ==> (leg'.status.Confirmed? <==> a.Success? && heard))
    && (p.ReleaseDestinations? ==> (leg'.status.Executing? <==> a.Success?))
  }

  /** A phase over different ready rows: each selected leg with a counterpart does as its answer says, and no other leg
      changes. */
  lemma AskEffect(p: Phase, legs: LegTable, rows: seq<Key>, answers: seq<Answer>)
    requires |rows| == |answers| && NoRepeats(rows) && forall i :: 0 <= i < |rows| ==> Ready(p, legs, rows[i])
    ensures var legs' := AdvanceAll(p, legs, rows, answers);
            && legs'.Keys == legs.Keys
            && (forall k :: k in legs && k !in rows ==> legs'[k] == legs[k])
            && (forall i :: 0 <= i < |rows| && rows[i] in legs && Other(rows[i]) !in legs ==> legs'[rows[i]] == legs[rows[i]])
            && (forall i :: 0 <= i < |rows| && rows[i] in legs && Other(rows[i]) in legs ==>
                  && Answered(p, legs[rows[i]], answers[i], legs'[rows[i]])
                  && VerdictIs(p, legs[rows[i]], answers[i], legs'[rows[i]]))
  {
    AdvancedRows(p, legs, rows, answers);
    hide AdvanceAll;
    hide Answered, VerdictIs, Advance;
    forall i | 0 <= i < |rows| && Other(rows[i]) in legs
      ensures rows[i] in legs && Answered(p, legs[rows[i]], answers[i], Advance(p, legs[rows[i]], answers[i]))
              && VerdictIs(p, legs[rows[i]], answers[i], Advance(p, legs[rows[i]], answers[i]))
    {
      assert Ready(p, legs, rows[i]);
      OneAnswer(p, legs, rows[i], answers[i]);
    }
  }

  lemma OneAnswer(p: Phase, legs: LegTable, k: Key, a: Answer)
    requires Ready(p, legs, k)
    ensures k in legs && Answered(p, legs[k], a, Advance(p, legs[k], a)) && VerdictIs(p, legs[k], a, Advance(p, legs[k], a))
  {
  }

  /** Which legs a refund run refunds: the selected ones, and the unfinished destinations of escrowed selected sources. */
  ghost predicate GetsRefund(legs: LegTable, rows: seq<Key>, k: Key) {
    k in rows ||
    (k in legs && k.1.Destination? && Other(k) in rows && Other(k) in legs && legs[Other(k)].status.Escrowed?
     && (legs[k].status.Pending? || legs[k].status.Executing?))
  }

  function AfterRefund(leg: Leg): Leg { leg.(status := Refunded, error := Some("Timeout refund")) }

  lemma {:induction false} RefundEffect(legs: LegTable, rows: seq<Key>)
    requires forall i :: 0 <= i < |rows| ==> rows[i] in legs
    ensures var legs' := RefundAll(legs, legs, rows);
            && legs'.Keys == legs.Keys
            && (forall k :: k in legs ==> legs'[k] == if GetsRefund(legs, rows, k) then AfterRefund(legs[k]) else legs[k])
  {
    if rows != [] {
      var init, last := rows[..|rows| - 1], rows[|rows| - 1];
      RefundEffect(legs, init);
      assert rows == init + [last] && last in legs;
      hide RefundAll, GetsRefund;
      var before := RefundAll(legs, legs, init);
      assert RefundAll(legs, legs, rows) == RefundOne(legs, before, last) by { LastRefund(legs, rows); }
      hide RefundOne;
      forall k | k in legs
        ensures k in RefundOne(legs, before, last)
        ensures RefundOne(legs, before, last)[k] == if GetsRefund(legs, init + [last], k) then AfterRefund(legs[k]) else legs[k]
      {
        OneRefund(legs, before, init, last, k);
      }
      RefundKeys(legs, before, last);
    }
  }

  lemma LastRefund(legs: LegTable, rows: seq<Key>)
    requires rows != []
    ensures RefundAll(legs, legs, rows) == RefundOne(legs, RefundAll(legs, legs, rows[..|rows| - 1]), rows[|rows| - 1])
  {
  }

  lemma RefundKeys(selected: LegTable, legs: LegTable, k: Key)
    ensures RefundOne(selected, legs, k).Keys == legs.Keys
  {
  }

  lemma OneRefund(legs: LegTable, before: LegTable, init: seq<Key>, last: Key, k: Key)
    requires before.Keys == legs.Keys && last in legs && k in legs
    requires forall j :: j in legs ==> before[j] == if GetsRefund(legs, init, j) then AfterRefund(legs[j]) else legs[j]
    ensures k in RefundOne(legs, before, last)
    ensures RefundOne(legs, before, last)[k] == if GetsRefund(legs, init + [last], k) then AfterRefund(legs[k]) else legs[k]
  {
    assert k in init + [last] <==> k in init || k == last;
    assert Other(k) in init + [last] <==> Other(k) in init || Other(k) == last;
    assert Other(last) == k <==> Other(k) == last;
  }

  /** Completed gains exactly the intents of the fills; a fill is recorded only if it was the one to complete its intent. */
  lemma {:induction false} FinalizeEffect(net: Net, fills: seq<Id>)
    requires forall j :: 0 <= j < |fills| ==> (fills[j], Source) in net.legs
    ensures var net' := FinalizeAll(net, fills);
            && net'.legs == net.legs && net'.clock == net.clock && net.finalized <= net'.finalized
            && (forall i :: i in net'.completed <==>
                  i in net.completed || exists j :: 0 <= j < |fills| && net.legs[(fills[j], Source)].intent == i)
            && (forall f :: f in net'.finalized && f !in net.finalized ==>
                  f in fills && (f, Source) in net.legs && net.legs[(f, Source)].intent !in net.completed)
            && (forall i :: i in net'.completed && i !in net.completed ==>
                  exists j :: 0 <= j < |fills| && fills[j] in net'.finalized && net.legs[(fills[j], Source)].intent == i)
  {
    if fills != [] {
      var init, last := fills[..|fills| - 1], fills[|fills| - 1];
      FinalizeEffect(net, init);
      var before, net' := FinalizeAll(net, init), FinalizeAll(net, fills);
      var intent := net.legs[(last, Source)].intent;
      hide FinalizeAll;
      forall i ensures i in net'.completed <==>
          i in net.completed || exists j :: 0 <= j < |fills| && net.legs[(fills[j], Source)].intent == i {
        if i == intent {
          assert net.legs[(fills[|fills| - 1], Source)].intent == i;
        } else if exists j :: 0 <= j < |init| && net.legs[(init[j], Source)].intent == i {
          var j :| 0 <= j < |init| && net.legs[(init[j], Source)].intent == i;
          assert fills[j] == init[j];
        } else {
          forall j | 0 <= j < |fills| ensures net.legs[(fills[j], Source)].intent != i {
            if j < |init| { assert fills[j] == init[j]; }
          }
        }
      }
      forall i | i in net'.completed && i !in net.completed
        ensures exists j :: 0 <= j < |fills| && fills[j] in net'.finalized && net.legs[(fills[j], Source)].intent == i
      {
        if i in before.completed {
          var j :| 0 <= j < |init| && init[j] in before.finalized && net.legs[(init[j], Source)].intent == i;
          assert fills[j] == init[j];
        } else {
          assert fills[|fills| - 1] in net'.finalized && net.legs[(fills[|fills| - 1], Source)].intent == i;
        }
      }
    }
  }

  /** A new settlement is two pending legs due in 600 seconds; a fill that has legs gets no others. */
  lemma CreateEffect(legs: LegTable, fill: Id, intent: Id, now: int)
    ensures var legs', s, d := CreateSettlement(legs, fill, intent, now), (fill, Source), (fill, Destination);
            if s in legs || d in legs then legs' == legs
            else legs' == legs[s := Leg(intent, Pending, None, None, now + 600)][d := Leg(intent, Pending, None, None, now + 600)]
  {
  }

  // ---------------------------------------------------------------
  // Runs
  // ---------------------------------------------------------------

  /** In this step the bridge answered Success about leg `k` in phase `p`. */
  ghost predicate Succeeded(s: Step, p: Phase, k: Key) {
    s.Ask? && s.phase == p && exists i :: 0 <= i < |s.rows| && i < |s.answers| && s.rows[i] == k && s.answers[i].Success?
  }

  ghost predicate LockSucceeded(past: seq<Step>, k: Key) { exists j :: 0 <= j < |past| && Succeeded(past[j], LockSources, k) }

  /** First the lock of the source, later the release of the destination. */
  ghost predicate ReleaseSucceeded(past: seq<Step>, d: Key) {
    exists i, j :: 0 <= i < j < |past| && Succeeded(past[i], LockSources, Other(d)) && Succeeded(past[j], ReleaseDestinations, d)
  }

  /** First the lock, later its verification. */
  ghost predicate VerifySucceeded(past: seq<Step>, k: Key) {
    exists i, j :: 0 <= i < j < |past| && Succeeded(past[i], LockSources, k) && Succeeded(past[j], VerifyEscrowed, k)
  }

  /** What a leg's status says about the past. */
  ghost predicate Earned(legs: LegTable, past: seq<Step>, k: Key) {
    k in legs ==>
      && (k.1.Source? && legs[k].status.Escrowed? ==> LockSucceeded(past, k))
      && (k.1.Source? && legs[k].status.Confirmed? ==> LockSucceeded(past, k) && VerifySucceeded(past, k))
      && (k.1.Destination? && (legs[k].status.Executing? || legs[k].status.Confirmed?) ==> ReleaseSucceeded(past, k))
  }

  lemma PastGrows(past: seq<Step>, s: Step, k: Key)
    ensures LockSucceeded(past, k) ==> LockSucceeded(past + [s], k)
    ensures ReleaseSucceeded(past, k) ==> ReleaseSucceeded(past + [s], k)
    ensures VerifySucceeded(past, k) ==> VerifySucceeded(past + [s], k)
  {
    var past' := past + [s];
    assert forall j :: 0 <= j < |past| ==> past'[j] == past[j];
    hide Succeeded;
    if LockSucceeded(past, k) {
      var j :| 0 <= j < |past| && Succeeded(past[j], LockSources, k);
      assert Succeeded(past'[j], LockSources, k);
    }
    if ReleaseSucceeded(past, k) {
      var i, j :| 0 <= i < j < |past| && Succeeded(past[i], LockSources, Other(k)) && Succeeded(past[j], ReleaseDestinations, k);
      assert Succeeded(past'[i], LockSources, Other(k)) && Succeeded(past'[j], ReleaseDestinations, k);
    }
    if VerifySucceeded(past, k) {
      var i, j :| 0 <= i < j < |past| && Succeeded(past[i], LockSources, k) && Succeeded(past[j], VerifyEscrowed, k);
      assert Succeeded(past'[i], LockSources, k) && Succeeded(past'[j], VerifyEscrowed, k);
    }
  }

  lemma NowSucceeds(past: seq<Step>, s: Step, k: Key)
    ensures Succeeded(s, LockSources, k) ==> LockSucceeded(past + [s], k)
    ensures Succeeded(s, VerifyEscrowed, k) && LockSucceeded(past, k) ==> VerifySucceeded(past + [s], k)
    ensures Succeeded(s, ReleaseDestinations, k) && LockSucceeded(past, Other(k)) ==> ReleaseSucceeded(past + [s], k)
  {
    var past' := past + [s];
    assert past'[|past|] == s && forall j :: 0 <= j < |past| ==> past'[j] == past[j];
    hide Succeeded;
    if LockSucceeded(past, k) && Succeeded(s, VerifyEscrowed, k) {
      var j :| 0 <= j < |past| && Succeeded(past[j], LockSources, k);
      assert Succeeded(past'[j], LockSources, k) && Succeeded(past'[|past|], VerifyEscrowed, k);
    }
    if LockSucceeded(past, Other(k)) && Succeeded(s, ReleaseDestinations, k) {
      var j :| 0 <= j < |past| && Succeeded(past[j], LockSources, Other(k));
      assert Succeeded(past'[j], LockSources, Other(k)) && Succeeded(past'[|past|], ReleaseDestinations, k);
    }
    if Succeeded(s, LockSources, k) { assert Succeeded(past'[|past|], LockSources, k); }
  }

  /** A good status that is new comes from a success in this very step. */
  lemma NewlyGood(net: Net, s: Step, k: Key)
    requires Enabled(net, s) && k in net.legs && k in Next(net, s).legs
    ensures var was, now := net.legs[k].status, Next(net, s).legs[k].status;
            && (k.1.Source? && now.Escrowed? && !was.Escrowed? ==> Succeeded(s, LockSources, k))
            && (k.1.Source? && now.Confirmed? && !was.Confirmed? ==> was.Escrowed? && Succeeded(s, VerifyEscrowed, k))
            && (k.1.Destination? && now.Executing? && !was.Executing? ==>
                  Succeeded(s, ReleaseDestinations, k) && Other(k) in net.legs
                  && (net.legs[Other(k)].status.Escrowed? || net.legs[Other(k)].status.Confirmed?))
            && (k.1.Destination? && now.Confirmed? && !was.Confirmed? ==> was.Executing?)
  {
    match s {
      case Create(_, _, _) =>
      case Ask(p, rows, answers) =>
        AskEffect(p, net.legs, rows, answers);
        hide AdvanceAll;
        if k in rows {
          var i :| 0 <= i < |rows| && rows[i] == k;
          assert Ready(p, net.legs, k);
        }
      case Timeouts(rows, _) =>
        assert forall i :: 0 <= i < |rows| ==> Overdue(net.legs, rows[i], s.now);
        RefundEffect(net.legs, rows);
        hide RefundAll, GetsRefund;
      case Finalize(fills) => FinalizeKeeps(net, fills);
      case ConfirmDestination(_) =>
    }
  }

  lemma NewLegsPending(net: Net, s: Step, k: Key)
    requires Enabled(net, s) && k !in net.legs && k in Next(net, s).legs
    ensures Next(net, s).legs[k].status.Pending?
  {
    match s {
      case Create(_, _, _) =>
      case Ask(p, rows, answers) => AskEffect(p, net.legs, rows, answers);
      case Timeouts(rows, _) =>
        assert forall i :: 0 <= i < |rows| ==> Overdue(net.legs, rows[i], s.now);
        RefundEffect(net.legs, rows);
      case Finalize(fills) => FinalizeKeeps(net, fills);
      case ConfirmDestination(_) =>
    }
  }

  lemma StepEarned(net: Net, s: Step, past: seq<Step>, k: Key)
    requires Enabled(net, s) && Earned(net.legs, past, k) && Earned(net.legs, past, Other(k))
    ensures Earned(Next(net, s).legs, past + [s], k)
  {
    assert s.Ask? ==> |s.rows| == |s.answers|;
    hide Next, Enabled, Succeeded, LockSucceeded, VerifySucceeded, ReleaseSucceeded;
    if k in Next(net, s).legs {
      PastGrows(past, s, k);
      NowSucceeds(past, s, k);
      if k in net.legs {
        NewlyGood(net, s, k);
      } else {
        NewLegsPending(net, s, k);
      }
    }
  }

  ghost predicate AllEarned(legs: LegTable, past: seq<Step>) { forall k :: Earned(legs, past, k) }

  lemma {:induction false} EarnedOverRuns(net: Net, steps: seq<Step>, net': Net, past: seq<Step>)
    requires AllEarned(net.legs, past) && Runs(net, steps, net')
    ensures AllEarned(net'.legs, past + steps)
    decreases |steps|
  {
    if steps == [] {
      assert past + steps == past;
    } else {
      var s := steps[0];
      hide Next, Enabled, Earned;
      forall k ensures Earned(Next(net, s).legs, past + [s], k) { StepEarned(net, s, past, k); }
      EarnedOverRuns(Next(net, s), steps[1..], net', past + [s]);
      assert past + [s] + steps[1..] == past + steps;
    }
  }

  /** In every run from empty tables: an escrowed or confirmed source got a successful lock answer, a confirmed one a
      successful verification after it, and a submitted or confirmed destination a successful release answer after its
      source's lock. */
  lemma StatusEarned(now: int, steps: seq<Step>, net': Net, k: Key)
    requires Runs(Start(now), steps, net') && k in net'.legs
    ensures k.1.Source? && (net'.legs[k].status.Escrowed? || net'.legs[k].status.Confirmed?) ==> LockSucceeded(steps, k)
    ensures k.1.Source? && net'.legs[k].status.Confirmed? ==> VerifySucceeded(steps, k)
    ensures k.1.Destination? && (net'.legs[k].status.Executing? || net'.legs[k].status.Confirmed?) ==> ReleaseSucceeded(steps, k)
  {
    EarnedOverRuns(Start(now), steps, net', []);
    assert [] + steps == steps;
    hide LockSucceeded, VerifySucceeded, ReleaseSucceeded, Runs;
    assert Earned(net'.legs, steps, k);
  }
}
