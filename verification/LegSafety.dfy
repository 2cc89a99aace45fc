/** Safety and progress of cross-chain legs over every run of the worker, interleaved with new settlements and with
    destination confirmations that come from outside. */
module LegSafety {
  import opened Legs

  datatype Step =
    | Create(fill: Id, intent: Id, now: int)
    | Ask(phase: Phase, rows: seq<Key>, answers: seq<Answer>)
    | Timeouts(rows: seq<Key>, now: int)
    | Finalize(fills: seq<Id>)
    | ConfirmDestination(fill: Id)

  /** The rows come from the phase's query, and the clock does not run backwards. */
  ghost predicate Enabled(net: Net, s: Step) {
    match s
    case Create(_, _, now) => net.clock <= now
    case Ask(p, rows, answers) => |rows| == |answers| && NoRepeats(rows) && forall i :: 0 <= i < |rows| ==> Ready(p, net.legs, rows[i])
    case Timeouts(rows, now) => net.clock <= now && OverdueSelection(net.legs, now, rows)
    case Finalize(fills) => forall i :: 0 <= i < |fills| ==> BothConfirmed(net.legs, fills[i])
    case ConfirmDestination(fill) => (fill, Destination) in net.legs && net.legs[(fill, Destination)].status.Executing?
  }

  function Next(net: Net, s: Step): Net
    requires s.Ask? ==> |s.rows| == |s.answers|
  {
    match s
    case Create(fill, intent, now) => net.(legs := CreateSettlement(net.legs, fill, intent, now), clock := now)
    case Ask(p, rows, answers) => net.(legs := AdvanceAll(p, net.legs, rows, answers))
    case Timeouts(rows, now) => net.(legs := RefundAll(net.legs, net.legs, rows), clock := now)
    case Finalize(fills) => FinalizeAll(net, fills)
    case ConfirmDestination(fill) =>
      if (fill, Destination) in net.legs then
        net.(legs := net.legs[(fill, Destination) := net.legs[(fill, Destination)].(status := Confirmed)])
      else net
  }

  // ---------------------------------------------------------------
  // What one step does to one leg
  // ---------------------------------------------------------------

  predicate Allowed(side: Side, s: Status, s': Status) {
    s == s' ||
    match s
    case Pending => s'.Failed? || s'.Refunded? || (if side.Source? then s'.Escrowed? else s'.Executing?)
    case Escrowed => s'.Refunded? || (side.Source? && (s'.Confirmed? || s'.Failed?))
    case Executing => s'.Refunded? || (side.Destination? && s'.Confirmed?)
    case Failed => s'.Refunded?
    case Confirmed => false
    case Refunded => false
  }

  /** A destination is submitted only on the strength of a source that holds the funds, before and after. */
  predicate Backed(legs: LegTable, legs': LegTable, k: Key) {
    k in legs && k in legs' && k.1.Destination? && legs'[k].status.Executing? && !legs[k].status.Executing? ==>
      && Other(k) in legs && (legs[Other(k)].status.Escrowed? || legs[Other(k)].status.Confirmed?)
      && Other(k) in legs' && legs'[Other(k)] == legs[Other(k)]
  }

  predicate Moves(legs: LegTable, legs': LegTable, k: Key) {
    k in legs ==>
      && k in legs' && Allowed(k.1, legs[k].status, legs'[k].status)
      && legs'[k].timeoutAt == legs[k].timeoutAt && legs'[k].intent == legs[k].intent
      && Backed(legs, legs', k)
  }

  lemma {:induction false} AdvancedRows(p: Phase, legs: LegTable, rows: seq<Key>, answers: seq<Answer>)
    requires |rows| == |answers| && NoRepeats(rows)
    ensures var legs' := AdvanceAll(p, legs, rows, answers);
            && legs'.Keys == legs.Keys
            && (forall k :: k in legs && k !in rows ==> legs'[k] == legs[k])
            && (forall i :: 0 <= i < |rows| && rows[i] in legs ==>
                  legs'[rows[i]] == if Other(rows[i]) in legs then Advance(p, legs[rows[i]], answers[i]) else legs[rows[i]])
  {
    if rows != [] {
      AdvancedRows(p, legs, rows[..|rows| - 1], answers[..|rows| - 1]);
      assert rows == rows[..|rows| - 1] + [rows[|rows| - 1]];
    }
  }

  lemma AskMoves(p: Phase, legs: LegTable, rows: seq<Key>, answers: seq<Answer>, k: Key)
    requires |rows| == |answers| && NoRepeats(rows) && forall i :: 0 <= i < |rows| ==> Ready(p, legs, rows[i])
    ensures Moves(legs, AdvanceAll(p, legs, rows, answers), k)
  {
    AdvancedRows(p, legs, rows, answers);
    hide AdvanceAll;
    if k in rows {
      var i :| 0 <= i < |rows| && rows[i] == k;
      assert Ready(p, legs, k);
      if p.ReleaseDestinations? { assert Other(k) !in rows; }
    }
  }

  /** A refund run leaves resolved legs alone, refunds the selected ones, and otherwise only the destination of an
      escrowed source. */
  lemma {:induction false} RefundedRows(legs: LegTable, rows: seq<Key>)
    requires forall i :: 0 <= i < |rows| ==> rows[i] in legs && !Resolved(legs[rows[i]].status)
    ensures var legs' := RefundAll(legs, legs, rows);
            && legs'.Keys == legs.Keys
            && (forall k :: k in legs ==> legs'[k] == legs[k] || (legs'[k] == Refunds(legs[k]) && !Resolved(legs[k].status)))
            && (forall k :: k in legs && k in rows ==> legs'[k].status.Refunded?)
            && (forall k :: k in legs && k !in rows && legs'[k] != legs[k] ==> k.1.Destination? && Other(k) in rows)
  {
    if rows != [] {
      RefundedRows(legs, rows[..|rows| - 1]);
      var before := RefundAll(legs, legs, rows[..|rows| - 1]);
      var last := rows[|rows| - 1];
      assert rows == rows[..|rows| - 1] + [last];
      assert RefundAll(legs, legs, rows) == RefundOne(legs, before, last);
      assert last in rows && Other(Other(last)) == last;
      hide RefundAll;
      RefundedRow(legs, before, last);
      hide RefundOne;
    }
  }

  /** One refund changes its own leg and at most the unfinished destination of an escrowed source. */
  lemma RefundedRow(selected: LegTable, legs: LegTable, k: Key)
    requires k in legs
    ensures var legs' := RefundOne(selected, legs, k);
            && legs'.Keys == legs.Keys && legs'[k] == Refunds(legs[k])
            && (forall j :: j in legs && j != k ==>
                  legs'[j] == legs[j] || (j == Other(k) && j.1.Destination? && legs'[j] == Refunds(legs[j]) && !Resolved(legs[j].status)))
  {
  }

  /** Every step moves every leg as the protocol allows. */
  lemma LegMoves(net: Net, s: Step, k: Key)
    requires Enabled(net, s)
    ensures Moves(net.legs, Next(net, s).legs, k)
  {
    match s {
      case Create(_, _, _) =>
      case Ask(p, rows, answers) => AskMoves(p, net.legs, rows, answers, k);
      case Timeouts(rows, _) => RefundedRows(net.legs, rows); hide RefundAll;
      case Finalize(fills) => FinalizeKeeps(net, fills);
      case ConfirmDestination(_) =>
    }
  }

  lemma {:induction false} FinalizeKeeps(net: Net, fills: seq<Id>)
    ensures var net' := FinalizeAll(net, fills);
            && net'.legs == net.legs && net'.clock == net.clock && net.finalized <= net'.finalized
            && net.completed <= net'.completed && (forall f :: f in net'.finalized && f !in net.finalized ==> f in fills)
  {
    if fills != [] {
      FinalizeKeeps(net, fills[..|fills| - 1]);
    }
  }

  // ---------------------------------------------------------------
  // Invariant
  // ---------------------------------------------------------------

  predicate PairOk(legs: LegTable, k: Key, clock: int)
    requires k in legs
  {
    && Other(k) in legs && legs[Other(k)].timeoutAt == legs[k].timeoutAt && legs[Other(k)].intent == legs[k].intent
    && (if k.1.Source? then !legs[k].status.Executing? else !legs[k].status.Escrowed?)
    && (k.1.Source? && legs[k].status.Refunded? ==> legs[k].timeoutAt < clock)
  }

  ghost predicate Inv(net: Net) {
    && (forall k :: k in net.legs ==> PairOk(net.legs, k, net.clock))
    && (forall f :: f in net.finalized ==> BothConfirmed(net.legs, f) && net.legs[(f, Source)].intent in net.completed)
  }

  /** Only the timeout phase refunds a source, and only an overdue one; legs appear only in pairs. */
  lemma NewlyRefunded(net: Net, s: Step, k: Key)
    requires Enabled(net, s) && k in net.legs && k.1.Source? && !net.legs[k].status.Refunded?
    ensures k in Next(net, s).legs
    ensures Next(net, s).legs[k].status.Refunded? ==> s.Timeouts? && net.legs[k].timeoutAt < s.now
  {
    match s {
      case Create(_, _, _) =>
      case Ask(p, rows, answers) => AskNeverRefunds(p, net.legs, rows, answers, k);
      case Timeouts(rows, now) =>
        RefundedRows(net.legs, rows);
        hide RefundAll;
        if k in rows { assert Overdue(net.legs, k, now); }
      case Finalize(fills) => FinalizeKeeps(net, fills);
      case ConfirmDestination(_) =>
    }
  }

  lemma NewRows(net: Net, s: Step, k: Key)
    requires Enabled(net, s) && k in Next(net, s).legs && k !in net.legs
    ensures PairOk(Next(net, s).legs, k, Next(net, s).clock)
  {
    match s {
      case Create(_, _, _) =>
      case Ask(p, rows, answers) => AdvancedRows(p, net.legs, rows, answers);
      case Timeouts(rows, _) => RefundedRows(net.legs, rows);
      case Finalize(fills) => FinalizeKeeps(net, fills);
      case ConfirmDestination(_) =>
    }
  }

  lemma ClockForward(net: Net, s: Step)
    requires Enabled(net, s)
    ensures net.clock <= Next(net, s).clock && (s.Timeouts? ==> Next(net, s).clock == s.now)
  {
    if s.Finalize? { FinalizeKeeps(net, s.fills); }
  }

  lemma StepPairs(net: Net, s: Step, k: Key)
    requires Inv(net) && Enabled(net, s) && k in Next(net, s).legs
    ensures PairOk(Next(net, s).legs, k, Next(net, s).clock)
  {
    if k !in net.legs {
      NewRows(net, s, k);
    } else {
      assert PairOk(net.legs, k, net.clock);
      hide Next, Enabled, Inv;
      LegMoves(net, s, k);
      LegMoves(net, s, Other(k));
      ClockForward(net, s);
      if k.1.Source? && !net.legs[k].status.Refunded? { NewlyRefunded(net, s, k); }
    }
  }

  lemma AskNeverRefunds(p: Phase, legs: LegTable, rows: seq<Key>, answers: seq<Answer>, k: Key)
    requires |rows| == |answers| && NoRepeats(rows) && k in legs
    ensures k in AdvanceAll(p, legs, rows, answers)
    ensures AdvanceAll(p, legs, rows, answers)[k].status.Refunded? ==> legs[k].status.Refunded?
  {
    AdvancedRows(p, legs, rows, answers);
    if k in rows { var i :| 0 <= i < |rows| && rows[i] == k; }
  }

  lemma InvStep(net: Net, s: Step)
    requires Inv(net) && Enabled(net, s)
    ensures Inv(Next(net, s))
  {
    var net' := Next(net, s);
    forall k | k in net'.legs ensures PairOk(net'.legs, k, net'.clock) { StepPairs(net, s, k); }
    if s.Finalize? { FinalizeKeeps(net, s.fills); FinalizeMarks(net, s.fills); }
    forall f | f in net'.finalized ensures BothConfirmed(net'.legs, f) && net'.legs[(f, Source)].intent in net'.completed {
      LegMoves(net, s, (f, Source));
      LegMoves(net, s, (f, Destination));
      hide AdvanceAll, RefundAll, FinalizeAll;
    }
  }

  lemma {:induction false} FinalizeMarks(net: Net, fills: seq<Id>)
    requires forall f :: f in net.finalized ==> (f, Source) in net.legs && net.legs[(f, Source)].intent in net.completed
    ensures var net' := FinalizeAll(net, fills);
            forall f :: f in net'.finalized ==> (f, Source) in net'.legs && net'.legs[(f, Source)].intent in net'.completed
  {
    if fills != [] { FinalizeMarks(net, fills[..|fills| - 1]); }
  }

  // ---------------------------------------------------------------
  // Runs
  // ---------------------------------------------------------------

  ghost predicate Runs(net: Net, steps: seq<Step>, net': Net)
    decreases |steps|
  {
    if steps == [] then net' == net
    else Enabled(net, steps[0]) && Runs(Next(net, steps[0]), steps[1..], net')
  }

  /** What is decided about a leg stays decided. */
  ghost predicate Settled(net: Net, net': Net, k: Key) {
    k in net.legs ==>
      && k in net'.legs
      && (net.legs[k].status.Confirmed? ==> net'.legs[k].status.Confirmed?)
      && (net.legs[k].status.Refunded? ==> net'.legs[k].status.Refunded?)
      && (net.legs[k].status.Failed? ==> net'.legs[k].status.Failed? || net'.legs[k].status.Refunded?)
  }

  predicate Dead(s: Status) { s.Failed? || s.Refunded? }

  /** A destination not yet submitted when its source is dead is never submitted. */
  ghost predicate NotSubmitted(net: Net, net': Net, f: Id) {
    var k, d := (f, Source), (f, Destination);
    (k in net.legs && d in net.legs && Dead(net.legs[k].status) && !net.legs[d].status.Executing?) ==>
      (d in net'.legs && !net'.legs[d].status.Executing?)
  }

  ghost predicate Decided(net: Net, net': Net) {
    && (forall k :: Settled(net, net', k))
    && (forall f :: NotSubmitted(net, net', f))
  }

  lemma StepDecided(net: Net, s: Step, net': Net)
    requires Enabled(net, s) && Decided(Next(net, s), net')
    ensures Decided(net, net')
  {
    var next := Next(net, s);
    hide Next, Enabled;
    forall k ensures Settled(net, net', k) {
      LegMoves(net, s, k);
      assert Settled(next, net', k);
    }
    forall f ensures NotSubmitted(net, net', f) {
      LegMoves(net, s, (f, Source));
      LegMoves(net, s, (f, Destination));
      assert NotSubmitted(next, net', f);
    }
  }

  /** Confirmed and Refunded are absorbing, Failed leads only to Refunded; once the source failed or was refunded its
      destination is not submitted any more; and a finalized fill keeps both legs confirmed. */
  lemma {:induction false} LegSafetyTheorem(net: Net, steps: seq<Step>, net': Net)
    requires Inv(net) && Runs(net, steps, net')
    ensures Inv(net') && Decided(net, net')
    ensures net.finalized <= net'.finalized && forall f :: f in net'.finalized ==> BothConfirmed(net'.legs, f)
    decreases |steps|
  {
    if steps != [] {
      var s, next := steps[0], Next(net, steps[0]);
      hide Decided, BothConfirmed, AdvanceAll, RefundAll;
      if s.Finalize? { FinalizeKeeps(net, s.fills); }
      assert net.finalized <= next.finalized;
      hide Next, Enabled;
      InvStep(net, s);
      LegSafetyTheorem(next, steps[1..], net');
      StepDecided(net, s, net');
    }
  }

  function Start(now: int): Net { Net(map[], {}, {}, now) }

  /** From the empty tables every run keeps the invariant: a finalized fill has both legs confirmed and its intent
      completed. */
  lemma SafeFromStart(now: int, steps: seq<Step>, net': Net)
    requires Runs(Start(now), steps, net')
    ensures Inv(net')
  {
    LegSafetyTheorem(Start(now), steps, net');
  }

  /** A refunded source can face a live destination only when that destination is itself overdue. */
  lemma RefundedSourceMeansOverdue(net: Net, steps: seq<Step>, net': Net, fill: Id)
    requires Inv(net) && Runs(net, steps, net')
    requires (fill, Source) in net'.legs && net'.legs[(fill, Source)].status.Refunded?
    ensures (fill, Destination) in net'.legs && net'.legs[(fill, Destination)].timeoutAt < net'.clock
    ensures Resolved(net'.legs[(fill, Destination)].status) || Overdue(net'.legs, (fill, Destination), net'.clock)
  {
    LegSafetyTheorem(net, steps, net');
    assert PairOk(net'.legs, (fill, Source), net'.clock);
  }

  // ---------------------------------------------------------------
  // No starvation
  // ---------------------------------------------------------------

  /** The legs that were due before `cutoff` and are still open. */
  function Backlog(legs: LegTable, cutoff: int): set<Key> { set k | k in legs && Overdue(legs, k, cutoff) }

  lemma {:induction false} RowsAsSet(rows: seq<Key>)
    requires NoRepeats(rows)
    ensures |set k | k in rows| == |rows|
  {
    if rows != [] {
      var init, last := rows[..|rows| - 1], rows[|rows| - 1];
      RowsAsSet(init);
      assert (set k | k in rows) == (set k | k in init) + {last};
      assert last !in init;
    }
  }

  lemma SmallerSet(a: set<Key>, b: set<Key>)
    requires a <= b
    ensures |a| <= |b|
  {
    assert b == a + (b - a);
  }

  /** One refund phase after the cutoff takes at least 50 legs off the backlog, or all of them. */
  lemma TimeoutsDrain(legs: LegTable, rows: seq<Key>, now: int, cutoff: int)
    requires OverdueSelection(legs, now, rows) && cutoff <= now
    ensures |Backlog(RefundAll(legs, legs, rows), cutoff)| + 50 <= |Backlog(legs, cutoff)|
            || Backlog(RefundAll(legs, legs, rows), cutoff) == {}
  {
    var before, after := Backlog(legs, cutoff), Backlog(RefundAll(legs, legs, rows), cutoff);
    RefundedRows(legs, rows);
    hide RefundAll;
    var chosen := set k | k in rows;
    assert after <= before - chosen;
    if k :| k in before && k !in rows {
      assert Overdue(legs, k, now);
      assert chosen <= before;
      RowsAsSet(rows);
      SmallerSet(after, before - chosen);
    } else {
      assert after == {};
    }
  }

  lemma BacklogShrinks(net: Net, s: Step, cutoff: int)
    requires Enabled(net, s) && cutoff <= net.clock
    ensures Backlog(Next(net, s).legs, cutoff) <= Backlog(net.legs, cutoff) && cutoff <= Next(net, s).clock
  {
    var net' := Next(net, s);
    if s.Finalize? { FinalizeKeeps(net, s.fills); }
    if s.Ask? { AdvancedRows(s.phase, net.legs, s.rows, s.answers); }
    if s.Timeouts? { RefundedRows(net.legs, s.rows); }
    forall k | k in Backlog(net'.legs, cutoff) ensures k in Backlog(net.legs, cutoff) {
      LegMoves(net, s, k);
    }
  }

  function CountTimeouts(steps: seq<Step>): nat {
    if steps == [] then 0 else (if steps[0].Timeouts? then 1 else 0) + CountTimeouts(steps[1..])
  }

  /** For a cutoff already past, m refund phases leave at most n - 50m of n open legs, whatever else happens between them. */
  lemma {:induction false} BacklogAfter(net: Net, steps: seq<Step>, net': Net, cutoff: int)
    requires Runs(net, steps, net') && cutoff <= net.clock
    ensures |Backlog(net'.legs, cutoff)| + 50 * CountTimeouts(steps) <= |Backlog(net.legs, cutoff)| || Backlog(net'.legs, cutoff) == {}
    ensures Backlog(net'.legs, cutoff) <= Backlog(net.legs, cutoff)
    decreases |steps|
  {
    hide Backlog;
    if steps != [] {
      var s, next := steps[0], Next(net, steps[0]);
      BacklogShrinks(net, s, cutoff);
      SmallerSet(Backlog(next.legs, cutoff), Backlog(net.legs, cutoff));
      if s.Timeouts? { TimeoutsDrain(net.legs, s.rows, s.now, cutoff); }
      BacklogAfter(next, steps[1..], net', cutoff);
    }
  }

  /** No starvation: ceil(n / 50) refund phases resolve every leg that was due before the cutoff. */
  lemma NoStarvation(net: Net, steps: seq<Step>, net': Net, cutoff: int)
    requires Runs(net, steps, net') && cutoff <= net.clock
    requires CountTimeouts(steps) >= (|Backlog(net.legs, cutoff)| + 49) / 50
    ensures forall k :: k in net'.legs && net'.legs[k].timeoutAt < cutoff ==> Resolved(net'.legs[k].status)
  {
    BacklogAfter(net, steps, net', cutoff);
    var n := |Backlog(net.legs, cutoff)|;
    assert 50 * CountTimeouts(steps) >= n;
    assert |Backlog(net'.legs, cutoff)| <= 0;
    forall k | k in net'.legs && net'.legs[k].timeoutAt < cutoff ensures Resolved(net'.legs[k].status) {
      assert k !in Backlog(net'.legs, cutoff);
    }
  }
}
