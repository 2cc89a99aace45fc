/** The circuit breaker (src/circuit_breaker.rs). A call passes the gate, runs outside the lock, and reports its result
    later, so gates, results and resets of many calls interleave freely. */
module CircuitBreaker {
  import opened Prelude

  datatype State = Closed | Open | HalfOpen

  datatype Inner = Inner(state: State, failureCount: nat, openedAt: Option<int>,
                         totalRejections: nat, totalSuccesses: nat, totalFailures: nat)

  const FRESH: Inner := Inner(Closed, 0, None, 0, 0, 0)

  /** The gate of `call`: whether it lets the caller through. */
  function Gate(s: Inner, resetTimeout: int, now: int): (Inner, bool) {
    if s.state.Open? && s.openedAt.Some? then
      if now - s.openedAt.value >= resetTimeout then (s.(state := HalfOpen), true)
      else (s.(totalRejections := s.totalRejections + 1), false)
    else (s, true)
  }

  function RecordSuccess(s: Inner): Inner {
    var counted := s.(totalSuccesses := s.totalSuccesses + 1);
    match s.state
    case HalfOpen => counted.(state := Closed, failureCount := 0, openedAt := None)
    case Closed => counted.(failureCount := 0)
    case Open => counted
  }

  function RecordFailure(s: Inner, threshold: nat, now: int): Inner {
    var counted := s.(failureCount := s.failureCount + 1, totalFailures := s.totalFailures + 1);
    match s.state
    case Closed => if counted.failureCount >= threshold then counted.(state := Open, openedAt := Some(now)) else counted
    case HalfOpen => counted.(state := Open, openedAt := Some(now))
    case Open => counted
  }

  function Reset(s: Inner): Inner { s.(state := Closed, failureCount := 0, openedAt := None) }

  class Breaker {
    const threshold: nat
    const resetTimeout: int
    var state: State
    var failureCount: nat
    var openedAt: Option<int>
    var totalRejections: nat
    var totalSuccesses: nat
    var totalFailures: nat

    function View(): Inner
      reads this
    {
      Inner(state, failureCount, openedAt, totalRejections, totalSuccesses, totalFailures)
    }

    constructor (threshold: nat, resetTimeout: int)
      ensures View() == FRESH && this.threshold == threshold && this.resetTimeout == resetTimeout
    {
      this.threshold, this.resetTimeout := threshold, resetTimeout;
      state, failureCount, openedAt := Closed, 0, None;
      totalRejections, totalSuccesses, totalFailures := 0, 0, 0;
    }

    method Enter(now: int) returns (admitted: bool)
      modifies this
      ensures (View(), admitted) == Gate(old(View()), resetTimeout, now)
    {
      if state == Open {
        if openedAt.Some? {
          if now - openedAt.value >= resetTimeout {
            state := HalfOpen;
          } else {
            totalRejections := totalRejections + 1;
            return false;
          }
        }
      }
      return true;
    }

    method Succeed()
      modifies this
      ensures View() == RecordSuccess(old(View()))
    {
      totalSuccesses := totalSuccesses + 1;
      match state {
        case HalfOpen =>
          state := Closed;
          failureCount := 0;
          openedAt := None;
        case Closed => failureCount := 0;
        case Open =>
      }
    }

    method Fail(now: int)
      modifies this
      ensures View() == RecordFailure(old(View()), threshold, now)
    {
      failureCount := failureCount + 1;
      totalFailures := totalFailures + 1;
      match state {
        case Closed =>
          if failureCount >= threshold {
            state := Open;
            openedAt := Some(now);
          }
        case HalfOpen =>
          state := Open;
          openedAt := Some(now);
        case Open =>
      }
    }

    method ManualReset()
      modifies this
      ensures View() == Reset(old(View()))
    {
      state := Closed;
      failureCount := 0;
      openedAt := None;
    }
  }

  // ---------------------------------------------------------------
  // Interleavings
  // ---------------------------------------------------------------

  datatype Event = Arrive(now: int) | Success(now: int) | Failure(now: int) | ResetEvent(now: int)

  /** The breaker, the calls that passed the gate and have not reported, and the time. */
  datatype World = World(inner: Inner, inFlight: nat, clock: int)

  datatype Config = Config(threshold: nat, resetTimeout: int)

  /** Only a call in flight can report, and time does not run backwards. */
  predicate Enabled(w: World, e: Event) { w.clock <= e.now && (e.Success? || e.Failure? ==> w.inFlight > 0) }

  function Next(c: Config, w: World, e: Event): World
    requires Enabled(w, e)
  {
    match e
    case Arrive(now) =>
      var (inner, admitted) := Gate(w.inner, c.resetTimeout, now);
      World(inner, if admitted then w.inFlight + 1 else w.inFlight, now)
    case Success(now) => World(RecordSuccess(w.inner), w.inFlight - 1, now)
    case Failure(now) => World(RecordFailure(w.inner, c.threshold, now), w.inFlight - 1, now)
    case ResetEvent(now) => World(Reset(w.inner), w.inFlight, now)
  }

  predicate Possible(c: Config, w: World, events: seq<Event>)
    decreases |events|, 0
  {
    events == [] ||
    (Possible(c, w, events[..|events| - 1]) && Enabled(Run(c, w, events[..|events| - 1]), events[|events| - 1]))
  }

  function Run(c: Config, w: World, events: seq<Event>): World
    requires Possible(c, w, events)
    decreases |events|, 1
  {
    if events == [] then w else Next(c, Run(c, w, events[..|events| - 1]), events[|events| - 1])
  }

  function Start(now: int): World { World(FRESH, 0, now) }

  /** Failures reported since the last success or reset, read off the event log alone. */
  function Streak(events: seq<Event>): nat {
    if events == [] then 0
    else
      var last := events[|events| - 1];
      if last.Success? || last.ResetEvent? then 0
      else Streak(events[..|events| - 1]) + if last.Failure? then 1 else 0
  }

  function Arrivals(events: seq<Event>): nat {
    if events == [] then 0 else Arrivals(events[..|events| - 1]) + if events[|events| - 1].Arrive? then 1 else 0
  }

  predicate Inv(c: Config, w: World, events: seq<Event>) {
    var s := w.inner;
    && (s.openedAt.Some? <==> !s.state.Closed?)
    && (s.openedAt.Some? ==> s.openedAt.value <= w.clock)
    && (s.state.Closed? ==> s.failureCount == Streak(events) < c.threshold)
    && Arrivals(events) == s.totalRejections + s.totalSuccesses + s.totalFailures + w.inFlight
  }

  /** Over every interleaving: the opening time is set exactly when the breaker is not closed; a closed breaker counts
      exactly the failures since the last success or reset, and they are fewer than the threshold; and every arrival
      was rejected, has succeeded, has failed or is still in flight. */
  lemma {:induction false} BreakerInvariant(c: Config, now: int, events: seq<Event>)
    requires c.threshold >= 1 && Possible(c, Start(now), events)
    ensures Inv(c, Run(c, Start(now), events), events)
  {
    if events != [] {
      BreakerInvariant(c, now, events[..|events| - 1]);
    }
  }

  /** A closed breaker opens on exactly the failure that brings the streak to the threshold. */
  lemma OpensAtThreshold(c: Config, now: int, events: seq<Event>)
    requires c.threshold >= 1 && Possible(c, Start(now), events) && events != [] && events[|events| - 1].Failure?
    requires Run(c, Start(now), events[..|events| - 1]).inner.state.Closed?
    ensures var s := Run(c, Start(now), events).inner;
            && (s.state.Open? <==> Streak(events) == c.threshold)
            && (s.state.Open? ==> s.openedAt == Some(events[|events| - 1].now))
            && !s.state.HalfOpen?
  {
    BreakerInvariant(c, now, events[..|events| - 1]);
  }

  predicate Quiet(events: seq<Event>, deadline: int) {
    forall i :: 0 <= i < |events| ==> !events[i].ResetEvent? && events[i].now < deadline
  }

  /** From an opening until the reset timeout every arriving call is rejected, and calls that report late change
      neither the state nor the opening time. */
  lemma {:induction false} OpenWindow(c: Config, w: World, events: seq<Event>, t: int)
    requires w.inner.state.Open? && w.inner.openedAt == Some(t)
    requires Possible(c, w, events) && Quiet(events, t + c.resetTimeout)
    ensures var w' := Run(c, w, events);
            && w'.inner.state.Open? && w'.inner.openedAt == Some(t)
            && w'.inner.totalRejections == w.inner.totalRejections + Arrivals(events)
            && w'.inFlight <= w.inFlight
  {
    if events != [] {
      var init, last := events[..|events| - 1], events[|events| - 1];
      assert Quiet(init, t + c.resetTimeout) && last == events[|events| - 1];
      OpenWindow(c, w, init, t);
    }
  }

  /** "One probe" is not what the code does: once the timeout has passed, every call that arrives before a result is
      let through. A window with n arrivals has n probes, so it has one exactly when n is one. */
  lemma {:induction false} EveryArrivalProbes(c: Config, w: World, events: seq<Event>, t: int)
    requires w.inner.state.Open? && w.inner.openedAt == Some(t)
    requires Possible(c, w, events)
    requires forall i :: 0 <= i < |events| ==> events[i].Arrive? && events[i].now >= t + c.resetTimeout
    ensures var w' := Run(c, w, events);
            && w'.inner.state == (if events == [] then Open else HalfOpen) && w'.inner.openedAt == Some(t)
            && w'.inFlight == w.inFlight + |events|
  {
    if events != [] {
      EveryArrivalProbes(c, w, events[..|events| - 1], t);
      assert events[|events| - 1].Arrive? && events[|events| - 1].now >= t + c.resetTimeout;
    }
  }

  /** The gate lets a call through exactly when the breaker is not open or the timeout has passed since it opened; the
      first one after that makes it half open, and a rejection is counted. */
  lemma GateIff(c: Config, now0: int, events: seq<Event>, now: int)
    requires c.threshold >= 1 && Possible(c, Start(now0), events)
    ensures var s := Run(c, Start(now0), events).inner;
            var (s', admitted) := Gate(s, c.resetTimeout, now);
            && (s.state.Open? ==> s.openedAt.Some?)
            && (admitted <==> !s.state.Open? || now >= s.openedAt.value + c.resetTimeout)
            && (s'.state == if s.state.Open? && admitted then HalfOpen else s.state)
            && s' == s.(state := s'.state, totalRejections := s.totalRejections + if admitted then 0 else 1)
  {
    BreakerInvariant(c, now0, events);
  }

  /** A good probe closes the breaker, a failed one opens it again from now on; a success clears the count of a closed
      breaker; and a result that comes in while it is open changes neither state nor opening time. */
  lemma ResultEffect(s: Inner, threshold: nat, now: int)
    ensures var good, bad := RecordSuccess(s), RecordFailure(s, threshold, now);
            && (s.state.HalfOpen? ==> good.state == Closed && good.failureCount == 0 && good.openedAt == None)
            && (s.state.HalfOpen? ==> bad.state == Open && bad.openedAt == Some(now))
            && (s.state.Closed? ==> good == s.(failureCount := 0, totalSuccesses := s.totalSuccesses + 1))
            && (s.state.Closed? ==> bad.failureCount == s.failureCount + 1)
            && (s.state.Closed? && s.failureCount + 1 >= threshold ==> bad.state == Open && bad.openedAt == Some(now))
            && (s.state.Closed? && s.failureCount + 1 < threshold ==> bad.state == Closed && bad.openedAt == s.openedAt)
            && (s.state.Open? ==> good.state == bad.state == Open && good.openedAt == bad.openedAt == s.openedAt)
            && good.totalSuccesses == s.totalSuccesses + 1 && good.totalFailures == s.totalFailures
            && bad.totalFailures == s.totalFailures + 1 && bad.totalSuccesses == s.totalSuccesses
            && good.totalRejections == bad.totalRejections == s.totalRejections
    ensures Reset(s) == s.(state := Closed, failureCount := 0, openedAt := None)
  {
  }

  function Successes(events: seq<Event>): nat {
    if events == [] then 0 else Successes(events[..|events| - 1]) + if events[|events| - 1].Success? then 1 else 0
  }

  function Failures(events: seq<Event>): nat {
    if events == [] then 0 else Failures(events[..|events| - 1]) + if events[|events| - 1].Failure? then 1 else 0
  }

  /** Each total counts its own events. */
  lemma {:induction false} TotalsCount(c: Config, now: int, events: seq<Event>)
    requires Possible(c, Start(now), events)
    ensures var s := Run(c, Start(now), events).inner; s.totalSuccesses == Successes(events) && s.totalFailures == Failures(events)
  {
    if events != [] { TotalsCount(c, now, events[..|events| - 1]); }
  }
}
