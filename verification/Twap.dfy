/** Time-weighted orders: slicing, and the counters kept by at-least-once events. One parent order and its children;
    no statement touches the rows of two parents. (src/twap/service.rs, src/twap/scheduler.rs, src/twap/listener.rs) */
module Twap {
  import opened Prelude

  datatype Status = Active | Completed | Cancelled | Failed

  datatype ChildStatus = ChildPending | Submitted | ChildCompleted | ChildExpired | ChildFailed | ChildCancelled

  /** `hasIntent` once the scheduler has stored the id of a real intent. */
  datatype Child = Child(qty: int, scheduledAt: int, status: ChildStatus, hasIntent: bool)

  datatype Twap = Twap(totalQty: int, filledQty: int, durationSecs: int, intervalSecs: int,
                       slicesTotal: int, slicesCompleted: int, status: Status, children: seq<Child>)

  datatype Outcome = Created(twap: Twap) | InvalidParams | DivisionByZero

  // ---------------------------------------------------------------
  // Slicing
  // ---------------------------------------------------------------

  /** `as i32` */
  function AsI32(x: int): int { (x + 0x8000_0000) % 0x1_0000_0000 - 0x8000_0000 }

  predicate ValidParams(totalQty: int, durationSecs: int, intervalSecs: int) {
    0 < intervalSecs <= durationSecs && 0 < totalQty
  }

  function SliceQty(totalQty: nat, slices: int, i: nat): int
    requires i < slices
  {
    var q := totalQty / slices;
    if i == slices - 1 then q + (totalQty - q * slices) else q
  }

  /** The first `n` of the slices. */
  function Schedule(totalQty: nat, slices: int, intervalSecs: int, now: int, n: nat): (s: seq<Child>)
    requires n <= slices
    ensures |s| == n
  {
    seq(n, i requires 0 <= i < n => Child(SliceQty(totalQty, slices, i), now + intervalSecs * i, ChildPending, false))
  }

  method CreateTwap(totalQty: int, durationSecs: int, intervalSecs: int, now: int) returns (r: Outcome)
    ensures r.InvalidParams? <==> !ValidParams(totalQty, durationSecs, intervalSecs)
    ensures r.DivisionByZero? <==> ValidParams(totalQty, durationSecs, intervalSecs) && AsI32(durationSecs / intervalSecs) == 0
    ensures r.Created? ==>
              var slices := AsI32(durationSecs / intervalSecs);
              r.twap == Twap(totalQty, 0, durationSecs, intervalSecs, slices, 0, Active,
                             if slices > 0 then Schedule(totalQty, slices, intervalSecs, now, slices) else [])
  {
    if intervalSecs <= 0 || durationSecs <= 0 { return InvalidParams; }
    if totalQty <= 0 { return InvalidParams; }
    if intervalSecs > durationSecs { return InvalidParams; }
    var slices := AsI32(durationSecs / intervalSecs);
    if slices == 0 { return DivisionByZero; }
    var perSlice := Quotient(totalQty, slices);
    var remainder := totalQty - perSlice * slices;
    var children: seq<Child> := [];
    var i := 0;
    while i < slices
      invariant 0 <= i && (slices > 0 ==> i <= slices && children == Schedule(totalQty, slices, intervalSecs, now, i))
      invariant slices < 0 ==> children == []
    {
      var qty := if i == slices - 1 then perSlice + remainder else perSlice;
      children := children + [Child(qty, now + intervalSecs * i, ChildPending, false)];
      i := i + 1;
    }
    return Created(Twap(totalQty, 0, durationSecs, intervalSecs, slices, 0, Active, children));
  }

  function SumQty(s: seq<Child>): int { if s == [] then 0 else SumQty(s[..|s| - 1]) + s[|s| - 1].qty }

  lemma PlainSlice(totalQty: nat, slices: int, i: nat)
    requires i < slices - 1
    ensures SliceQty(totalQty, slices, i) == totalQty / slices
  {
  }

  lemma {:induction false} EqualSlices(totalQty: nat, slices: int, intervalSecs: int, now: int, n: nat)
    requires n < slices
    ensures SumQty(Schedule(totalQty, slices, intervalSecs, now, n)) == n * (totalQty / slices)
  {
    hide SliceQty;
    if n > 0 {
      assert SliceQty(totalQty, slices, n - 1) == totalQty / slices by { PlainSlice(totalQty, slices, n - 1); }
      EqualSlices(totalQty, slices, intervalSecs, now, n - 1);
      assert Schedule(totalQty, slices, intervalSecs, now, n)[..n - 1] == Schedule(totalQty, slices, intervalSecs, now, n - 1);
      assert (n - 1) * (totalQty / slices) + totalQty / slices == n * (totalQty / slices);
    }
  }

  /** The last slice takes what the others leave. */
  lemma SliceParts(totalQty: nat, slices: int)
    requires slices > 0
    ensures var q := totalQty / slices;
            q >= 0 && (slices - 1) * q + SliceQty(totalQty, slices, slices - 1) == totalQty
            && SliceQty(totalQty, slices, slices - 1) >= 0
  {
    var q := totalQty / slices;
    assert q * slices <= totalQty;
    assert (slices - 1) * q == q * slices - q;
  }

  lemma ScheduleSum(totalQty: nat, slices: int, intervalSecs: int, now: int)
    requires slices > 0
    ensures SumQty(Schedule(totalQty, slices, intervalSecs, now, slices)) == totalQty
    ensures forall i :: 0 <= i < slices ==> Schedule(totalQty, slices, intervalSecs, now, slices)[i].qty >= 0
  {
    var s := Schedule(totalQty, slices, intervalSecs, now, slices);
    forall i | 0 <= i < slices - 1 ensures s[i].qty == totalQty / slices >= 0 {}
    SliceParts(totalQty, slices);
    assert s[slices - 1].qty == SliceQty(totalQty, slices, slices - 1);
    EqualSlices(totalQty, slices, intervalSecs, now, slices - 1);
    assert s[..slices - 1] == Schedule(totalQty, slices, intervalSecs, now, slices - 1);
    hide SliceQty, Schedule;
  }

  /** The slices add up to the order exactly when the number of slices is positive after the cast to i32. */
  lemma SlicesSumIff(totalQty: int, durationSecs: int, intervalSecs: int, now: int)
    requires ValidParams(totalQty, durationSecs, intervalSecs) && AsI32(durationSecs / intervalSecs) != 0
    ensures var slices := AsI32(durationSecs / intervalSecs);
            var children := if slices > 0 then Schedule(totalQty, slices, intervalSecs, now, slices) else [];
            && (SumQty(children) == totalQty <==> slices > 0)
            && (forall i :: 0 <= i < |children| ==> children[i].qty >= 0)
  {
    hide AsI32, Schedule;
    var slices := AsI32(durationSecs / intervalSecs);
    if slices > 0 { ScheduleSum(totalQty, slices, intervalSecs, now); }
  }

  /** The cast keeps the number modulo 2^32 and lands in the range of an i32. */
  lemma CastMeans(x: int)
    ensures -0x8000_0000 <= AsI32(x) < 0x8000_0000 && (x - AsI32(x)) % 0x1_0000_0000 == 0
    ensures -0x8000_0000 <= x < 0x8000_0000 ==> AsI32(x) == x
  {
    var y := x + 0x8000_0000;
    assert x - AsI32(x) == y / 0x1_0000_0000 * 0x1_0000_0000;
  }

  /** All slices but the last are the same size and the last is larger by less than one unit a slice; each waits for its
      own time. */
  lemma SliceShape(totalQty: int, durationSecs: int, intervalSecs: int, now: int)
    requires ValidParams(totalQty, durationSecs, intervalSecs) && AsI32(durationSecs / intervalSecs) > 0
    ensures var slices := AsI32(durationSecs / intervalSecs);
            var s := Schedule(totalQty, slices, intervalSecs, now, slices);
            && (forall i :: 0 <= i < slices - 1 ==> s[i].qty == s[0].qty)
            && s[0].qty <= s[slices - 1].qty < s[0].qty + slices
            && (slices > 1 ==> s[0].qty * slices <= totalQty < (s[0].qty + 1) * slices)
            && (forall i :: 0 <= i < slices ==> s[i].status.ChildPending? && !s[i].hasIntent)
  {
    hide AsI32;
    var slices := AsI32(durationSecs / intervalSecs);
    assert totalQty == totalQty / slices * slices + totalQty % slices;
    assert (totalQty / slices + 1) * slices == totalQty / slices * slices + slices;
  }

  /** What the scheduler gives a slice as its deadline. */
  function Deadline(c: Child, intervalSecs: int): int { c.scheduledAt + intervalSecs }

  /** Each window ends where the next begins, the first begins with the order and the last ends within its duration. */
  lemma WindowsTile(totalQty: int, durationSecs: int, intervalSecs: int, now: int)
    requires ValidParams(totalQty, durationSecs, intervalSecs) && AsI32(durationSecs / intervalSecs) > 0
    ensures var slices := AsI32(durationSecs / intervalSecs);
            var s := Schedule(totalQty, slices, intervalSecs, now, slices);
            && s[0].scheduledAt == now
            && (forall i :: 0 <= i < slices - 1 ==> Deadline(s[i], intervalSecs) == s[i + 1].scheduledAt)
            && Deadline(s[slices - 1], intervalSecs) <= now + durationSecs
            && (durationSecs / intervalSecs < 0x8000_0000 ==>
                  now + durationSecs < Deadline(s[slices - 1], intervalSecs) + intervalSecs)
  {
    var slices := AsI32(durationSecs / intervalSecs);
    var s := Schedule(totalQty, slices, intervalSecs, now, slices);
    forall i | 0 <= i < slices - 1 ensures Deadline(s[i], intervalSecs) == s[i + 1].scheduledAt {
      assert intervalSecs * i + intervalSecs == intervalSecs * (i + 1);
    }
    assert slices <= durationSecs / intervalSecs;
    LastWindow(durationSecs, intervalSecs, slices);
    assert intervalSecs * (slices - 1) + intervalSecs == intervalSecs * slices;
  }

  lemma LastWindow(durationSecs: int, intervalSecs: int, slices: int)
    requires 0 < intervalSecs && 0 < slices <= durationSecs / intervalSecs
    ensures intervalSecs * slices <= durationSecs
    ensures slices == durationSecs / intervalSecs ==> durationSecs < intervalSecs * slices + intervalSecs
  {
    var q := durationSecs / intervalSecs;
    assert intervalSecs * q <= durationSecs < intervalSecs * q + intervalSecs;
    assert intervalSecs * slices <= intervalSecs * q;
  }

  // ---------------------------------------------------------------
  // Events
  // ---------------------------------------------------------------

  function SetChild(t: Twap, i: nat, status: ChildStatus): Twap
    requires i < |t.children|
  {
    t.(children := t.children[i := t.children[i].(status := status)])
  }

  /** Mark the slice, submit its intent, then store the intent's id or the failure. */
  function SubmitSlice(t: Twap, i: nat, accepted: bool): Twap
    requires i < |t.children|
  {
    if accepted then t.(children := t.children[i := t.children[i].(status := Submitted, hasIntent := true)])
    else SetChild(t, i, ChildFailed)
  }

  function RecordCompleted(t: Twap, i: nat, settledQty: int): Twap
    requires i < |t.children|
  {
    if t.children[i].status.ChildCompleted? then t
    else
      var u := SetChild(t, i, ChildCompleted).(filledQty := t.filledQty + settledQty, slicesCompleted := t.slicesCompleted + 1);
      if (u.filledQty >= u.totalQty || u.slicesCompleted >= u.slicesTotal) && u.status.Active?
      then u.(status := Completed) else u
  }

  function RecordExpired(t: Twap, i: nat): Twap
    requires i < |t.children|
  {
    if t.children[i].status.ChildCompleted? || t.children[i].status.ChildExpired? then t
    else
      var u := SetChild(t, i, ChildExpired).(slicesCompleted := t.slicesCompleted + 1);
      if u.slicesCompleted >= u.slicesTotal && u.filledQty < u.totalQty && u.status.Active?
      then u.(status := Failed) else u
  }

  function CancelChildren(s: seq<Child>): (r: seq<Child>)
    ensures |r| == |s|
  {
    seq(|s|, i requires 0 <= i < |s| =>
          if s[i].status.ChildPending? || s[i].status.Submitted? then s[i].(status := ChildCancelled) else s[i])
  }

  /** The pending or submitted children that stand for a real intent. */
  function OpenIntents(s: seq<Child>): seq<nat> {
    if s == [] then []
    else
      var last := s[|s| - 1];
      OpenIntents(s[..|s| - 1])
      + if (last.status.ChildPending? || last.status.Submitted?) && last.hasIntent then [|s| - 1] else []
  }

  function CancelTwap(t: Twap): Twap {
    if !t.status.Active? then t else t.(children := CancelChildren(t.children), status := Cancelled)
  }

  class Order {
    var totalQty: int
    var filledQty: int
    var durationSecs: int
    var intervalSecs: int
    var slicesTotal: int
    var slicesCompleted: int
    var status: Status
    var children: seq<Child>

    function View(): Twap
      reads this
    {
      Twap(totalQty, filledQty, durationSecs, intervalSecs, slicesTotal, slicesCompleted, status, children)
    }

    constructor (t: Twap)
      ensures View() == t
    {
      totalQty, filledQty, durationSecs, intervalSecs := t.totalQty, t.filledQty, t.durationSecs, t.intervalSecs;
      slicesTotal, slicesCompleted, status, children := t.slicesTotal, t.slicesCompleted, t.status, t.children;
    }

    /** Submit the due slices one by one; `accepted` says which intents the service took. */
    method ProcessDueSlices(rows: seq<nat>, accepted: seq<bool>)
      requires |rows| == |accepted| && forall k :: 0 <= k < |rows| ==> rows[k] < |children|
      modifies this`children
      ensures View() == SubmitAll(old(View()), rows, accepted)
    {
      for k := 0 to |rows|
        invariant |children| == |old(children)|
        invariant SubmitAll(View(), rows[k..], accepted[k..]) == SubmitAll(old(View()), rows, accepted)
      {
        var i := rows[k];
        assert rows[k..][1..] == rows[k + 1..] && accepted[k..][1..] == accepted[k + 1..];
        ghost var before := View();
        children := children[i := children[i].(status := Submitted)];
        if accepted[k] {
          children := children[i := children[i].(hasIntent := true)];
        } else {
          children := children[i := children[i].(status := ChildFailed)];
        }
        assert View() == SubmitSlice(before, i, accepted[k]);
      }
    }

    method OnCompleted(i: nat, settledQty: int)
      requires i < |children|
      modifies this
      ensures View() == RecordCompleted(old(View()), i, settledQty)
    {
      if children[i].status == ChildCompleted { return; }
      children := children[i := children[i].(status := ChildCompleted)];
      filledQty := filledQty + settledQty;
      slicesCompleted := slicesCompleted + 1;
      if filledQty >= totalQty || slicesCompleted >= slicesTotal {
        if status == Active { status := Completed; }
      }
    }

    method OnExpired(i: nat)
      requires i < |children|
      modifies this
      ensures View() == RecordExpired(old(View()), i)
    {
      if children[i].status == ChildCompleted || children[i].status == ChildExpired { return; }
      children := children[i := children[i].(status := ChildExpired)];
      slicesCompleted := slicesCompleted + 1;
      if slicesCompleted >= slicesTotal && filledQty < totalQty {
        if status == Active { status := Failed; }
      }
    }

    /** `withIntents` lists the children whose intents are cancelled one by one before the rows are. */
    method Cancel() returns (done: bool, withIntents: seq<nat>)
      modifies this
      ensures View() == CancelTwap(old(View())) && done == old(status).Active?
      ensures withIntents == if done then OpenIntents(old(children)) else []
    {
      withIntents := [];
      if status != Active { return false, []; }
      for i := 0 to |children|
        invariant withIntents == OpenIntents(children[..i])
      {
        assert children[..i + 1][..i] == children[..i];
        if (children[i].status == ChildPending || children[i].status == Submitted) && children[i].hasIntent {
          withIntents := withIntents + [i];
        }
      }
      assert children[..|children|] == children;
      children := CancelChildren(children);
      status := Cancelled;
      done := true;
    }
  }

  function SubmitAll(t: Twap, rows: seq<nat>, accepted: seq<bool>): Twap
    requires |rows| == |accepted| && forall k :: 0 <= k < |rows| ==> rows[k] < |t.children|
    decreases |rows|
  {
    if rows == [] then t else SubmitAll(SubmitSlice(t, rows[0], accepted[0]), rows[1..], accepted[1..])
  }

  // ---------------------------------------------------------------
  // Runs
  // ---------------------------------------------------------------

  datatype Event =
    | Submit(i: nat, accepted: bool)
    | CompletedEvent(i: nat, settledQty: int)
    | ExpiredEvent(i: nat)
    | CancelEvent

  /** The scheduler selects pending slices of an active parent and writes their status later, so by then a cancel can have
      come in between, or the parent can have finished. Settlement events name a submitted child, can repeat and come in
      any order; a Completed one reports the child's whole quantity. */
  predicate Enabled(t: Twap, e: Event) {
    match e
    case Submit(i, _) => i < |t.children| && (t.children[i].status.ChildPending? || t.children[i].status.ChildCancelled?)
    case CompletedEvent(i, settledQty) => i < |t.children| && t.children[i].hasIntent && settledQty == t.children[i].qty
    case ExpiredEvent(i) => i < |t.children| && t.children[i].hasIntent
    case CancelEvent => true
  }

  function Next(t: Twap, e: Event): Twap
    requires Enabled(t, e)
  {
    match e
    case Submit(i, accepted) => SubmitSlice(t, i, accepted)
    case CompletedEvent(i, settledQty) => RecordCompleted(t, i, settledQty)
    case ExpiredEvent(i) => RecordExpired(t, i)
    case CancelEvent => CancelTwap(t)
  }

  /** `late` collects the children that completed after they had expired. */
  function Late(t: Twap, e: Event, late: set<nat>): set<nat>
    requires Enabled(t, e)
  {
    if e.CompletedEvent? && t.children[e.i].status.ChildExpired? then late + {e.i} else late
  }

  ghost predicate Runs(t: Twap, late: set<nat>, events: seq<Event>, t': Twap, late': set<nat>)
    decreases |events|
  {
    if events == [] then t' == t && late' == late
    else Enabled(t, events[0]) && Runs(Next(t, events[0]), Late(t, events[0], late), events[1..], t', late')
  }

  function CompletedQty(s: seq<Child>): int {
    if s == [] then 0
    else CompletedQty(s[..|s| - 1]) + if s[|s| - 1].status.ChildCompleted? then s[|s| - 1].qty else 0
  }

  /** Children that are completed or expired. */
  function Finished(s: seq<Child>): nat {
    if s == [] then 0
    else Finished(s[..|s| - 1]) + if s[|s| - 1].status.ChildCompleted? || s[|s| - 1].status.ChildExpired? then 1 else 0
  }

  predicate Inv(t: Twap, late: set<nat>) {
    && SumQty(t.children) == t.totalQty
    && (forall i :: 0 <= i < |t.children| ==> t.children[i].qty >= 0)
    && t.filledQty == CompletedQty(t.children)
    && t.slicesCompleted == Finished(t.children) + |late|
    && (forall i :: i in late ==> i < |t.children| && t.children[i].status.ChildCompleted?)
    && (t.status.Active? ==> t.slicesCompleted < t.slicesTotal && t.filledQty < t.totalQty)
  }

  function DoneQty(c: Child): int { if c.status.ChildCompleted? then c.qty else 0 }

  function Done(c: Child): nat { if c.status.ChildCompleted? || c.status.ChildExpired? then 1 else 0 }

  /** Changing one child changes the sums by what it contributes. */
  lemma {:induction false} ChangeChild(s: seq<Child>, i: nat, c: Child)
    requires i < |s| && c.qty == s[i].qty
    ensures SumQty(s[i := c]) == SumQty(s)
    ensures CompletedQty(s[i := c]) == CompletedQty(s) - DoneQty(s[i]) + DoneQty(c)
    ensures Finished(s[i := c]) == Finished(s) - Done(s[i]) + Done(c)
  {
    var init := s[..|s| - 1];
    if i < |s| - 1 {
      ChangeChild(init, i, c);
      assert s[i := c][..|s| - 1] == init[i := c];
    } else {
      assert s[i := c][..|s| - 1] == init;
    }
  }

  lemma {:induction false} CancelKeepsSums(s: seq<Child>)
    ensures var r := CancelChildren(s);
            SumQty(r) == SumQty(s) && CompletedQty(r) == CompletedQty(s) && Finished(r) == Finished(s)
  {
    if s != [] {
      CancelKeepsSums(s[..|s| - 1]);
      assert CancelChildren(s)[..|s| - 1] == CancelChildren(s[..|s| - 1]);
    }
  }

  lemma {:induction false} CompletedWithinTotal(s: seq<Child>)
    requires forall i :: 0 <= i < |s| ==> s[i].qty >= 0
    ensures 0 <= CompletedQty(s) <= SumQty(s)
  {
    if s != [] { CompletedWithinTotal(s[..|s| - 1]); }
  }

  lemma CompletedInv(t: Twap, late: set<nat>, i: nat)
    requires Inv(t, late) && i < |t.children|
    ensures Inv(RecordCompleted(t, i, t.children[i].qty), if t.children[i].status.ChildExpired? then late + {i} else late)
  {
    ChangeChild(t.children, i, t.children[i].(status := ChildCompleted));
    hide SumQty, CompletedQty, Finished;
    if t.children[i].status.ChildExpired? { assert i !in late; }
  }

  lemma ExpiredInv(t: Twap, late: set<nat>, i: nat)
    requires Inv(t, late) && i < |t.children|
    ensures Inv(RecordExpired(t, i), late)
  {
    ChangeChild(t.children, i, t.children[i].(status := ChildExpired));
    hide SumQty, CompletedQty, Finished;
  }

  lemma SubmitInv(t: Twap, late: set<nat>, i: nat, accepted: bool)
    requires Inv(t, late) && i < |t.children| && (t.children[i].status.ChildPending? || t.children[i].status.ChildCancelled?)
    ensures Inv(SubmitSlice(t, i, accepted), late)
  {
    ChangeChild(t.children, i, SubmitSlice(t, i, accepted).children[i]);
    hide SumQty, CompletedQty, Finished;
  }

  lemma StepInv(t: Twap, late: set<nat>, e: Event)
    requires Inv(t, late) && Enabled(t, e)
    ensures Inv(Next(t, e), Late(t, e, late))
    ensures Next(t, e).totalQty == t.totalQty && (!t.status.Active? ==> Next(t, e).status == t.status)
  {
    match e {
      case Submit(i, accepted) => hide Inv; SubmitInv(t, late, i, accepted);
      case CompletedEvent(i, _) => hide Inv; CompletedInv(t, late, i);
      case ExpiredEvent(i) => hide Inv; ExpiredInv(t, late, i);
      case CancelEvent => CancelKeepsSums(t.children);
    }
  }

  /** Over every run, whatever repeats or comes late: the filled quantity is the sum of the completed children, each
      counted once, and never exceeds the order; an active parent has slices and quantity left; a parent that is no
      longer active stays as it is; and the slice counter is over by exactly the children that completed after expiring. */
  lemma {:induction false} TwapRun(t: Twap, late: set<nat>, events: seq<Event>, t': Twap, late': set<nat>)
    requires Inv(t, late) && Runs(t, late, events, t', late')
    ensures Inv(t', late') && t'.totalQty == t.totalQty && 0 <= t'.filledQty <= t'.totalQty
    ensures !t.status.Active? ==> t'.status == t.status
    decreases |events|
  {
    if events == [] {
      CompletedWithinTotal(t.children);
    } else {
      StepInv(t, late, events[0]);
      TwapRun(Next(t, events[0]), Late(t, events[0], late), events[1..], t', late');
    }
  }

  // ---------------------------------------------------------------
  // Single events
  // ---------------------------------------------------------------

  /** The rows of a parent and its children after one child's status changed. */
  ghost predicate OnlyChild(t: Twap, t': Twap, i: nat, status: ChildStatus)
    requires i < |t.children|
  {
    && |t'.children| == |t.children| && t'.children[i] == t.children[i].(status := status)
    && (forall j :: 0 <= j < |t.children| && j != i ==> t'.children[j] == t.children[j])
    && t'.totalQty == t.totalQty && t'.durationSecs == t.durationSecs && t'.intervalSecs == t.intervalSecs
    && t'.slicesTotal == t.slicesTotal
  }

  /** A completion that is not a duplicate marks the child and makes an active parent Completed exactly when the completed
      children fill the order or the slice counter is used up; a duplicate changes nothing. */
  lemma CompletionVerdict(t: Twap, late: set<nat>, i: nat)
    requires Inv(t, late) && i < |t.children|
    ensures var t', late' := RecordCompleted(t, i, t.children[i].qty), if t.children[i].status.ChildExpired? then late + {i} else late;
            if t.children[i].status.ChildCompleted? then t' == t
            else
              && OnlyChild(t, t', i, ChildCompleted)
              && t'.status == if t.status.Active? && (CompletedQty(t'.children) == t.totalQty
                                                      || Finished(t'.children) + |late'| >= t.slicesTotal)
                              then Completed else t.status
  {
    CompletedInv(t, late, i);
    var t' := RecordCompleted(t, i, t.children[i].qty);
    ChildrenAfter(t, late, i);
    CompletedWithinTotal(t'.children);
    hide SumQty, CompletedQty, Finished;
  }

  lemma ChildrenAfter(t: Twap, late: set<nat>, i: nat)
    requires Inv(t, late) && i < |t.children|
    ensures forall j :: 0 <= j < |RecordCompleted(t, i, t.children[i].qty).children| ==> RecordCompleted(t, i, t.children[i].qty).children[j].qty >= 0
  {
  }

  /** An expiry that is not a duplicate, nor late, marks the child and makes an active parent Failed exactly when the slice
      counter is used up with the order not filled. */
  lemma ExpiryVerdict(t: Twap, late: set<nat>, i: nat)
    requires Inv(t, late) && i < |t.children|
    ensures var t' := RecordExpired(t, i);
            if t.children[i].status.ChildCompleted? || t.children[i].status.ChildExpired? then t' == t
            else
              && OnlyChild(t, t', i, ChildExpired)
              && t'.status == if t.status.Active? && Finished(t'.children) + |late| >= t.slicesTotal
                                 && CompletedQty(t'.children) < t.totalQty
                              then Failed else t.status
  {
    ExpiredInv(t, late, i);
    hide SumQty, CompletedQty, Finished;
  }

  /** Without an expiry or a cancel an active order ends Completed or stays active, and it is Completed once filled. */
  lemma {:induction false} FilledEndsCompleted(t: Twap, late: set<nat>, events: seq<Event>, t': Twap, late': set<nat>)
    requires Inv(t, late) && (t.status.Active? || t.status.Completed?) && Runs(t, late, events, t', late')
    requires forall k :: 0 <= k < |events| ==> !events[k].ExpiredEvent? && !events[k].CancelEvent?
    ensures t'.status.Active? || t'.status.Completed?
    ensures CompletedQty(t'.children) == t'.totalQty ==> t'.status.Completed?
    decreases |events|
  {
    TwapRun(t, late, events, t', late');
    if events != [] {
      assert !events[0].ExpiredEvent? && !events[0].CancelEvent?;
      StepInv(t, late, events[0]);
      FilledEndsCompleted(Next(t, events[0]), Late(t, events[0], late), events[1..], t', late');
    }
  }

  /** Cancelling: an active parent and its pending or submitted children, nothing else. */
  lemma CancelEffect(t: Twap)
    ensures var t' := CancelTwap(t);
            if !t.status.Active? then t' == t
            else
              && t' == t.(status := Cancelled, children := t'.children) && |t'.children| == |t.children|
              && forall i :: 0 <= i < |t.children| ==>
                   t'.children[i] == if t.children[i].status in {ChildPending, Submitted} then t.children[i].(status := ChildCancelled)
                                     else t.children[i]
  {
  }

  /** The intents cancelled with an order are those of its pending or submitted children, each once, in order. */
  lemma {:induction false} OpenIntentsAre(s: seq<Child>)
    ensures forall i: nat :: i in OpenIntents(s) <==> i < |s| && s[i].status in {ChildPending, Submitted} && s[i].hasIntent
    ensures forall j, k :: 0 <= j < k < |OpenIntents(s)| ==> OpenIntents(s)[j] < OpenIntents(s)[k]
  {
    if s != [] {
      OpenIntentsAre(s[..|s| - 1]);
      var init := OpenIntents(s[..|s| - 1]);
      forall k | 0 <= k < |init| ensures init[k] < |s| - 1 { assert init[k] in init; }
    }
  }

  /** The scheduler's loop over different rows: an accepted slice is submitted with its intent, a refused one has failed. */
  lemma {:induction false} SubmitEffect(t: Twap, rows: seq<nat>, accepted: seq<bool>)
    requires |rows| == |accepted| && (forall k :: 0 <= k < |rows| ==> rows[k] < |t.children|)
    requires forall j, k :: 0 <= j < k < |rows| ==> rows[j] != rows[k]
    ensures var t' := SubmitAll(t, rows, accepted);
            && t' == t.(children := t'.children) && |t'.children| == |t.children|
            && (forall i :: 0 <= i < |t.children| && i !in rows ==> t'.children[i] == t.children[i])
            && (forall k :: 0 <= k < |rows| ==>
                  t'.children[rows[k]] == if accepted[k] then t.children[rows[k]].(status := Submitted, hasIntent := true)
                                          else t.children[rows[k]].(status := ChildFailed))
    decreases |rows|
  {
    if rows != [] {
      var t1 := SubmitSlice(t, rows[0], accepted[0]);
      SubmitEffect(t1, rows[1..], accepted[1..]);
      hide SubmitAll;
      assert rows[0] !in rows[1..];
      forall k | 0 <= k < |rows| ensures k > 0 ==> rows[1..][k - 1] == rows[k] && accepted[1..][k - 1] == accepted[k] {}
      assert SubmitAll(t, rows, accepted) == SubmitAll(t1, rows[1..], accepted[1..]) by { SubmitFirst(t, rows, accepted); }
      forall k | 0 < k < |rows| ensures t1.children[rows[k]] == t.children[rows[k]] { assert rows[0] != rows[k]; }
    }
  }

  lemma SubmitFirst(t: Twap, rows: seq<nat>, accepted: seq<bool>)
    requires |rows| == |accepted| > 0 && (forall k :: 0 <= k < |rows| ==> rows[k] < |t.children|)
    ensures SubmitAll(t, rows, accepted) == SubmitAll(SubmitSlice(t, rows[0], accepted[0]), rows[1..], accepted[1..])
  {
  }

  lemma {:induction false} NothingDone(s: seq<Child>)
    requires forall i :: 0 <= i < |s| ==> s[i].status.ChildPending?
    ensures CompletedQty(s) == 0 && Finished(s) == 0
  {
    if s != [] { NothingDone(s[..|s| - 1]); }
  }

  /** A created order starts inside the invariant exactly when its slice count came out of the cast positive. */
  lemma CreatedInvIff(totalQty: int, durationSecs: int, intervalSecs: int, now: int, t: Twap)
    requires ValidParams(totalQty, durationSecs, intervalSecs) && AsI32(durationSecs / intervalSecs) != 0
    requires var slices := AsI32(durationSecs / intervalSecs);
             t == Twap(totalQty, 0, durationSecs, intervalSecs, slices, 0, Active,
                       if slices > 0 then Schedule(totalQty, slices, intervalSecs, now, slices) else [])
    ensures Inv(t, {}) <==> AsI32(durationSecs / intervalSecs) > 0
  {
    SlicesSumIff(totalQty, durationSecs, intervalSecs, now);
    NothingDone(t.children);
  }

  /** The order of two events decides the verdict: of two slices, one that expires and one that completes, the parent
      is Completed if the expiry comes first and Failed if it comes last, with the same quantity filled. */
  lemma VerdictDependsOnOrder(t: Twap, i: nat, j: nat)
    requires Inv(t, {}) && t.status.Active? && t.slicesTotal == t.slicesCompleted + 2
    requires i < |t.children| && j < |t.children| && i != j && t.children[i].hasIntent && t.children[j].hasIntent
    requires t.children[i].status.Submitted? && t.children[j].status.Submitted?
    requires t.filledQty + t.children[j].qty < t.totalQty
    ensures RecordCompleted(RecordExpired(t, i), j, t.children[j].qty).status.Completed?
    ensures RecordExpired(RecordCompleted(t, j, t.children[j].qty), i).status.Failed?
    ensures RecordCompleted(RecordExpired(t, i), j, t.children[j].qty).filledQty
            == RecordExpired(RecordCompleted(t, j, t.children[j].qty), i).filledQty
  {
  }
}
