/** Per-user limits (src/risk/service.rs): how many intents in a minute, and how much volume in a day. The check and
    the recording of an accepted intent happen at two different times, with the balance transaction in between. */
module Risk {
  /** The user's row: recent acceptances, volume of the day, and the day it belongs to. */
  datatype Activity = Activity(recent: seq<int>, volume: nat, day: int)

  datatype Limits = Limits(maxIntentsPerMinute: nat, dailyVolumeLimit: nat)

  datatype Verdict = Accepted | RateLimitExceeded | DailyVolumeLimitExceeded

  const MINUTE: int := 60
  const U64: nat := 0x1_0000_0000_0000_0000

  /** Keep what is later than the cutoff, in order. */
  function Prune(recent: seq<int>, cutoff: int): seq<int> {
    if recent == [] then []
    else (if recent[0] > cutoff then [recent[0]] else []) + Prune(recent[1..], cutoff)
  }

  function ResetIfNewDay(a: Activity, today: int): Activity {
    if today != a.day then a.(volume := 0, day := today) else a
  }

  /** A user without a row gets an empty one, dated today. */
  function Entry(activity: map<string, Activity>, user: string, today: int): Activity {
    if user in activity then activity[user] else Activity([], 0, today)
  }

  /** The addition of the volumes is a u64 addition. */
  function CheckLimits(a: Activity, limits: Limits, amount: nat, now: int, today: int): (Activity, Verdict) {
    var pruned := a.(recent := Prune(a.recent, now - MINUTE));
    if |pruned.recent| >= limits.maxIntentsPerMinute then (pruned, RateLimitExceeded)
    else
      var reset := ResetIfNewDay(pruned, today);
      if (reset.volume + amount) % U64 > limits.dailyVolumeLimit then (reset, DailyVolumeLimitExceeded)
      else (reset, Accepted)
  }

  function Record(a: Activity, amount: nat, now: int, today: int): Activity {
    var reset := ResetIfNewDay(a.(recent := a.recent + [now]), today);
    reset.(volume := (reset.volume + amount) % U64)
  }

  class RiskEngine {
    var activity: map<string, Activity>
    const limits: Limits

    constructor (limits: Limits)
      ensures activity == map[] && this.limits == limits
    {
      activity := map[];
      this.limits := limits;
    }

    method CheckUserLimits(user: string, amount: nat, now: int, today: int) returns (v: Verdict)
      modifies this
      ensures var (a, verdict) := CheckLimits(Entry(old(activity), user, today), limits, amount, now, today);
              activity == old(activity)[user := a] && v == verdict
    {
      var entry := if user in activity then activity[user] else Activity([], 0, today);
      entry := entry.(recent := Prune(entry.recent, now - MINUTE));
      activity := activity[user := entry];
      if |entry.recent| >= limits.maxIntentsPerMinute { return RateLimitExceeded; }
      if today != entry.day { entry := entry.(volume := 0, day := today); }
      activity := activity[user := entry];
      if (entry.volume + amount) % U64 > limits.dailyVolumeLimit { return DailyVolumeLimitExceeded; }
      return Accepted;
    }

    method RecordAcceptedIntent(user: string, amount: nat, now: int, today: int)
      modifies this
      ensures activity == old(activity)[user := Record(Entry(old(activity), user, today), amount, now, today)]
    {
      var entry := if user in activity then activity[user] else Activity([], 0, today);
      entry := entry.(recent := entry.recent + [now]);
      if today != entry.day { entry := entry.(volume := 0, day := today); }
      entry := entry.(volume := (entry.volume + amount) % U64);
      activity := activity[user := entry];
    }
  }

  // ---------------------------------------------------------------
  // Runs of serialized create_intent calls
  // ---------------------------------------------------------------

  /** One call: the check, then, unless it or the transaction after it fails, the record. */
  datatype Attempt = Attempt(user: string, amount: nat, checkedAt: int, checkedOn: int,
                             committed: bool, recordedAt: int, recordedOn: int)

  datatype Acceptance = Acceptance(user: string, amount: nat, time: int, day: int)

  /** The table, every acceptance so far, and the two clocks. */
  datatype World = World(activity: map<string, Activity>, log: seq<Acceptance>, now: int, today: int)

  /** The clocks do not run backwards; the order size check before this one refuses amounts that are negative as i64. */
  predicate Enabled(w: World, t: Attempt) {
    w.now <= t.checkedAt <= t.recordedAt && w.today <= t.checkedOn <= t.recordedOn && t.amount < U64 / 2
  }

  function Next(limits: Limits, w: World, t: Attempt): World {
    var (a, verdict) := CheckLimits(Entry(w.activity, t.user, t.checkedOn), limits, t.amount, t.checkedAt, t.checkedOn);
    var checked := w.activity[t.user := a];
    if verdict.Accepted? && t.committed then
      World(checked[t.user := Record(Entry(checked, t.user, t.recordedOn), t.amount, t.recordedAt, t.recordedOn)],
            w.log + [Acceptance(t.user, t.amount, t.recordedAt, t.recordedOn)], t.recordedAt, t.recordedOn)
    else World(checked, w.log, t.recordedAt, t.recordedOn)
  }

  function Start(now: int, today: int): World { World(map[], [], now, today) }

  predicate Runs(limits: Limits, w: World, attempts: seq<Attempt>, w': World)
    decreases |attempts|
  {
    if attempts == [] then w' == w
    else Enabled(w, attempts[0]) && Runs(limits, Next(limits, w, attempts[0]), attempts[1..], w')
  }

  /** When the intents of a user were accepted. */
  function Times(log: seq<Acceptance>, user: string): seq<int> {
    if log == [] then []
    else
      var last := log[|log| - 1];
      Times(log[..|log| - 1], user) + if last.user == user then [last.time] else []
  }

  /** The volume of a user accepted on a day. */
  function Volume(log: seq<Acceptance>, user: string, day: int): nat {
    if log == [] then 0
    else
      var last := log[|log| - 1];
      Volume(log[..|log| - 1], user, day) + if last.user == user && last.day == day then last.amount else 0
  }

  predicate Sorted(s: seq<int>) { forall i, j :: 0 <= i <= j < |s| ==> s[i] <= s[j] }

  /** Any max + 1 acceptances in a row span at least a minute. */
  predicate Spaced(s: seq<int>, max: nat) { forall i :: 0 <= i < |s| - max ==> s[i + max] - s[i] >= MINUTE }

  /** `recent` is the end of `times`, and what is missing from it is at least a minute old. */
  predicate Recent(recent: seq<int>, times: seq<int>, now: int) {
    && |recent| <= |times| && recent == times[|times| - |recent|..]
    && forall i :: 0 <= i < |times| - |recent| ==> times[i] <= now - MINUTE
  }

  ghost predicate TimesOk(limits: Limits, w: World, user: string) {
    var times := Times(w.log, user);
    && Sorted(times) && Spaced(times, limits.maxIntentsPerMinute)
    && (forall i :: 0 <= i < |times| ==> times[i] <= w.now)
    && Recent(Entry(w.activity, user, w.today).recent, times, w.now)
  }

  ghost predicate VolumeOk(limits: Limits, w: World, user: string) {
    var a := Entry(w.activity, user, w.today);
    && a.day <= w.today && a.volume == Volume(w.log, user, a.day)
    && (forall d :: d > a.day ==> Volume(w.log, user, d) == 0)
    && (forall d :: Volume(w.log, user, d) <= limits.dailyVolumeLimit)
  }

  // ---------------------------------------------------------------
  // The rate limit
  // ---------------------------------------------------------------

  lemma {:induction false} PruneIsSuffix(recent: seq<int>, cutoff: int)
    requires Sorted(recent)
    ensures var r := Prune(recent, cutoff);
            && |r| <= |recent| && r == recent[|recent| - |r|..]
            && forall i :: 0 <= i < |recent| - |r| ==> recent[i] <= cutoff
  {
    if recent != [] {
      PruneIsSuffix(recent[1..], cutoff);
      if recent[0] > cutoff {
        PruneNothing(recent[1..], cutoff);
      } else {
        var r := Prune(recent[1..], cutoff);
        assert Prune(recent, cutoff) == r;
        hide Prune;
        TailOfTail(recent, |r|);
        forall i | 0 <= i < |recent| - |r| ensures recent[i] <= cutoff {
          if i > 0 { assert recent[i] == recent[1..][i - 1]; }
        }
      }
    }
  }

  lemma TailOfTail(s: seq<int>, n: nat)
    requires n < |s|
    ensures s[1..][|s| - 1 - n..] == s[|s| - n..]
  {
  }

  lemma {:induction false} PruneNothing(recent: seq<int>, cutoff: int)
    requires forall i :: 0 <= i < |recent| ==> recent[i] > cutoff
    ensures Prune(recent, cutoff) == recent
  {
    if recent != [] { PruneNothing(recent[1..], cutoff); }
  }

  lemma PruneRecent(recent: seq<int>, times: seq<int>, now: int, at: int)
    requires Sorted(times) && Recent(recent, times, now) && now <= at
    ensures Recent(Prune(recent, at - MINUTE), times, at)
  {
    PruneIsSuffix(recent, at - MINUTE);
    var r := Prune(recent, at - MINUTE);
    assert r == times[|times| - |r|..];
    forall i | 0 <= i < |times| - |r| ensures times[i] <= at - MINUTE {
      if i >= |times| - |recent| { assert times[i] == recent[i - (|times| - |recent|)]; }
    }
  }

  /** An acceptance recorded after a check that found fewer than max recent ones keeps the spacing. */
  lemma RecordSpaced(times: seq<int>, recent: seq<int>, max: nat, checkedAt: int, recordedAt: int)
    requires Sorted(times) && Spaced(times, max) && Recent(recent, times, checkedAt) && |recent| < max
    requires checkedAt <= recordedAt && forall i :: 0 <= i < |times| ==> times[i] <= recordedAt
    ensures Sorted(times + [recordedAt]) && Spaced(times + [recordedAt], max)
    ensures Recent(recent + [recordedAt], times + [recordedAt], checkedAt)
  {
    var times' := times + [recordedAt];
    forall i | 0 <= i < |times'| - max ensures times'[i + max] - times'[i] >= MINUTE {
      if i + max < |times| { assert times[i + max] - times[i] >= MINUTE; }
    }
    assert recent + [recordedAt] == times'[|times'| - |recent| - 1..];
  }

  lemma LogGrows(log: seq<Acceptance>, x: Acceptance, user: string)
    ensures Times(log + [x], user) == if x.user == user then Times(log, user) + [x.time] else Times(log, user)
    ensures forall d :: Volume(log + [x], user, d) == Volume(log, user, d) + (if x.user == user && x.day == d then x.amount else 0)
  {
    assert (log + [x])[..|log|] == log;
  }

  /** The check and the record, seen from one user's list of recent acceptances. */
  predicate Accepts(limits: Limits, w: World, t: Attempt) {
    t.committed && CheckLimits(Entry(w.activity, t.user, t.checkedOn), limits, t.amount, t.checkedAt, t.checkedOn).1.Accepted?
  }

  lemma NextRecent(limits: Limits, w: World, t: Attempt, user: string)
    ensures var w' := Next(limits, w, t);
            var pruned := Prune(Entry(w.activity, user, w.today).recent, t.checkedAt - MINUTE);
            && w'.now == t.recordedAt
            && w'.log == (if Accepts(limits, w, t) then w.log + [Acceptance(t.user, t.amount, t.recordedAt, t.recordedOn)] else w.log)
            && (Entry(w'.activity, user, w'.today).recent ==
                if t.user != user then Entry(w.activity, user, w.today).recent
                else if Accepts(limits, w, t) then pruned + [t.recordedAt] else pruned)
            && (t.user == user && Accepts(limits, w, t) ==> |pruned| < limits.maxIntentsPerMinute)
  {
    assert Entry(w.activity, user, t.checkedOn).recent == Entry(w.activity, user, w.today).recent;
    hide Prune;
  }

  lemma StepTimes(limits: Limits, w: World, t: Attempt, user: string)
    requires TimesOk(limits, w, user) && Enabled(w, t)
    ensures TimesOk(limits, Next(limits, w, t), user)
  {
    var times, entry := Times(w.log, user), Entry(w.activity, user, w.today);
    LogGrows(w.log, Acceptance(t.user, t.amount, t.recordedAt, t.recordedOn), user);
    NextRecent(limits, w, t, user);
    hide Next, Accepts, Entry, Times, Prune, Spaced, Sorted;
    if t.user == user {
      PruneRecent(entry.recent, times, w.now, t.checkedAt);
      if Accepts(limits, w, t) {
        RecordSpaced(times, Prune(entry.recent, t.checkedAt - MINUTE), limits.maxIntentsPerMinute, t.checkedAt, t.recordedAt);
      }
    }
  }

  /** How many acceptances fall into the minute that starts at `from`. */
  function CountIn(s: seq<int>, from: int): nat {
    if s == [] then 0
    else CountIn(s[..|s| - 1], from) + if from <= s[|s| - 1] < from + 60 then 1 else 0
  }

  lemma {:induction false} CountLate(s: seq<int>, from: int, k: nat)
    requires k <= |s| && forall i :: 0 <= i < |s| - k ==> s[i] < from
    ensures CountIn(s, from) <= k
  {
    if s != [] {
      CountLate(s[..|s| - 1], from, if k == 0 then 0 else k - 1);
    }
  }

  /** Spacing is what the limit promises: no minute holds more than max acceptances. */
  lemma {:induction false} WindowHolds(s: seq<int>, max: nat, from: int)
    requires Sorted(s) && Spaced(s, max)
    ensures CountIn(s, from) <= max
  {
    if s != [] {
      var last := s[|s| - 1];
      if from <= last < from + MINUTE {
        if |s| > max {
          var k := |s| - 1 - max;
          assert s[k + max] - s[k] >= MINUTE;
          CountLate(s, from, max);
        } else {
          CountLate(s, from, |s|);
        }
      } else {
        WindowHolds(s[..|s| - 1], max, from);
      }
    }
  }

  /** How many acceptances are less than a minute old. */
  function CountSince(s: seq<int>, now: int): nat {
    if s == [] then 0 else CountSince(s[..|s| - 1], now) + if s[|s| - 1] > now - 60 then 1 else 0
  }

  lemma {:induction false} CountAppend(a: seq<int>, b: seq<int>, now: int)
    requires forall i :: 0 <= i < |a| ==> a[i] <= now - 60
    requires forall i :: 0 <= i < |b| ==> b[i] > now - 60
    ensures CountSince(a + b, now) == |b|
    decreases |a| + |b|
  {
    if b != [] {
      assert (a + b)[..|a + b| - 1] == a + b[..|b| - 1];
      CountAppend(a, b[..|b| - 1], now);
    } else if a != [] {
      assert (a + b)[..|a + b| - 1] == a[..|a| - 1] + [];
      CountAppend(a[..|a| - 1], [], now);
    }
  }

  lemma {:induction false} PruneKeepsLate(recent: seq<int>, cutoff: int)
    ensures forall i :: 0 <= i < |Prune(recent, cutoff)| ==> Prune(recent, cutoff)[i] > cutoff
  {
    if recent != [] { PruneKeepsLate(recent[1..], cutoff); }
  }

  /** What pruning leaves are the acceptances of the last minute, all of them. */
  lemma PrunedCount(recent: seq<int>, times: seq<int>, now: int, at: int)
    requires Sorted(times) && Recent(recent, times, now) && now <= at
    ensures |Prune(recent, at - MINUTE)| == CountSince(times, at)
  {
    PruneRecent(recent, times, now, at);
    PruneKeepsLate(recent, at - MINUTE);
    var r := Prune(recent, at - MINUTE);
    assert times == times[..|times| - |r|] + r;
    CountAppend(times[..|times| - |r|], r, at);
  }

  /** The verdict of a check in any reachable state, said of the log: the rate limit is exceeded exactly when as many
      intents as it allows were accepted in the last minute, the day limit exactly when the volume accepted that day
      and the new amount go over it, and otherwise the intent is let through. */
  lemma VerdictIff(limits: Limits, now: int, today: int, attempts: seq<Attempt>, w: World, t: Attempt)
    requires Runs(limits, Start(now, today), attempts, w) && Enabled(w, t) && limits.dailyVolumeLimit <= 0x8000_0000_0000_0000
    ensures CheckLimits(Entry(w.activity, t.user, t.checkedOn), limits, t.amount, t.checkedAt, t.checkedOn).1 ==
              if CountSince(Times(w.log, t.user), t.checkedAt) >= limits.maxIntentsPerMinute then RateLimitExceeded
              else if Volume(w.log, t.user, t.checkedOn) + t.amount > limits.dailyVolumeLimit then DailyVolumeLimitExceeded
              else Accepted
  {
    hide TimesOk, VolumeOk, CheckLimits, CountSince, Enabled;
    assert TimesOk(limits, Start(now, today), t.user) && VolumeOk(limits, Start(now, today), t.user) by { NothingYet(limits, now, today, t.user); }
    TimesOverRuns(limits, Start(now, today), attempts, w, t.user);
    VolumeOverRuns(limits, Start(now, today), attempts, w, t.user);
    hide Runs;
    VerdictInState(limits, w, t);
  }

  lemma NothingYet(limits: Limits, now: int, today: int, user: string)
    ensures TimesOk(limits, Start(now, today), user) && VolumeOk(limits, Start(now, today), user)
  {
  }

  lemma VerdictInState(limits: Limits, w: World, t: Attempt)
    requires TimesOk(limits, w, t.user) && VolumeOk(limits, w, t.user) && Enabled(w, t)
    requires limits.dailyVolumeLimit <= 0x8000_0000_0000_0000
    ensures CheckLimits(Entry(w.activity, t.user, t.checkedOn), limits, t.amount, t.checkedAt, t.checkedOn).1 ==
              if CountSince(Times(w.log, t.user), t.checkedAt) >= limits.maxIntentsPerMinute then RateLimitExceeded
              else if Volume(w.log, t.user, t.checkedOn) + t.amount > limits.dailyVolumeLimit then DailyVolumeLimitExceeded
              else Accepted
  {
    hide Prune, CountSince, Times, Volume, Sorted, Spaced;
    var entry := Entry(w.activity, t.user, w.today);
    assert Entry(w.activity, t.user, t.checkedOn).recent == entry.recent;
    PrunedCount(entry.recent, Times(w.log, t.user), w.now, t.checkedAt);
    hide Recent;
  }

  // ---------------------------------------------------------------
  // The daily volume
  // ---------------------------------------------------------------

  lemma StepVolume(limits: Limits, w: World, t: Attempt, user: string)
    requires VolumeOk(limits, w, user) && Enabled(w, t) && limits.dailyVolumeLimit <= U64 / 2
    ensures VolumeOk(limits, Next(limits, w, t), user)
  {
    LogGrows(w.log, Acceptance(t.user, t.amount, t.recordedAt, t.recordedOn), user);
    hide Volume, Prune;
    var w' := Next(limits, w, t);
    if t.user == user {
      var (a, verdict) := CheckLimits(Entry(w.activity, user, t.checkedOn), limits, t.amount, t.checkedAt, t.checkedOn);
      assert a.day <= t.checkedOn && a.volume == Volume(w.log, user, a.day);
      if verdict.Accepted? {
        assert a.day == t.checkedOn && a.volume + t.amount < U64;
        assert a.volume + t.amount <= limits.dailyVolumeLimit;
      }
    }
  }

  // ---------------------------------------------------------------
  // Runs
  // ---------------------------------------------------------------

  lemma {:induction false} TimesOverRuns(limits: Limits, w: World, attempts: seq<Attempt>, w': World, user: string)
    requires Runs(limits, w, attempts, w') && TimesOk(limits, w, user)
    ensures TimesOk(limits, w', user)
    decreases |attempts|
  {
    if attempts != [] {
      StepTimes(limits, w, attempts[0], user);
      hide TimesOk, Next, Enabled;
      TimesOverRuns(limits, Next(limits, w, attempts[0]), attempts[1..], w', user);
    }
  }

  lemma {:induction false} VolumeOverRuns(limits: Limits, w: World, attempts: seq<Attempt>, w': World, user: string)
    requires Runs(limits, w, attempts, w') && VolumeOk(limits, w, user) && limits.dailyVolumeLimit <= U64 / 2
    ensures VolumeOk(limits, w', user)
    decreases |attempts|
  {
    if attempts != [] {
      StepVolume(limits, w, attempts[0], user);
      hide VolumeOk, Next, Enabled;
      VolumeOverRuns(limits, Next(limits, w, attempts[0]), attempts[1..], w', user);
    }
  }

  /** Over every run no minute holds more accepted intents of a user than the limit. */
  lemma RateLimit(limits: Limits, now: int, today: int, attempts: seq<Attempt>, w': World, user: string, from: int)
    requires Runs(limits, Start(now, today), attempts, w')
    ensures CountIn(Times(w'.log, user), from) <= limits.maxIntentsPerMinute
  {
    TimesOverRuns(limits, Start(now, today), attempts, w', user);
    WindowHolds(Times(w'.log, user), limits.maxIntentsPerMinute, from);
  }

  /** Over every run no day holds more volume of any user than the limit. */
  ghost predicate DayLimitHolds(limits: Limits) {
    forall attempts: seq<Attempt>, now: int, today: int, w': World, user: string, day: int
      {:trigger Runs(limits, Start(now, today), attempts, w'), Volume(w'.log, user, day)} ::
      Runs(limits, Start(now, today), attempts, w') ==> Volume(w'.log, user, day) <= limits.dailyVolumeLimit
  }

  lemma {:induction false} NoTimesNoVolume(log: seq<Acceptance>, user: string, day: int)
    requires Times(log, user) == []
    ensures Volume(log, user, day) == 0
  {
    if log != [] { NoTimesNoVolume(log[..|log| - 1], user, day); }
  }

  /** The addition in the check can wrap, so a limit above 2^63 protects nothing: the day limit holds over every run
      exactly when it is at most 2^63, or no intent is ever let through. */
  lemma DayLimitIff(limits: Limits)
    requires limits.dailyVolumeLimit < U64
    ensures DayLimitHolds(limits) <==> limits.dailyVolumeLimit <= 0x8000_0000_0000_0000 || limits.maxIntentsPerMinute == 0
  {
    if limits.dailyVolumeLimit <= U64 / 2 || limits.maxIntentsPerMinute == 0 {
      forall attempts, now, today, w', user, day | Runs(limits, Start(now, today), attempts, w')
        ensures Volume(w'.log, user, day) <= limits.dailyVolumeLimit
      {
        if limits.maxIntentsPerMinute == 0 {
          RateZero(limits, now, today, attempts, w', user, day);
        } else {
          VolumeOverRuns(limits, Start(now, today), attempts, w', user);
        }
      }
    } else {
      Wraps(limits);
    }
  }

  lemma NeverSpacedByNothing(s: seq<int>)
    requires s != []
    ensures !Spaced(s, 0)
  {
    var first := s[0];
    assert first < first + MINUTE;
  }

  lemma RateZero(limits: Limits, now: int, today: int, attempts: seq<Attempt>, w': World, user: string, day: int)
    requires Runs(limits, Start(now, today), attempts, w') && limits.maxIntentsPerMinute == 0
    ensures Volume(w'.log, user, day) == 0
  {
    TimesOverRuns(limits, Start(now, today), attempts, w', user);
    if Times(w'.log, user) != [] { NeverSpacedByNothing(Times(w'.log, user)); }
    NoTimesNoVolume(w'.log, user, day);
  }

  /** Three intents on one day, an hour apart; the third makes the sum wrap to zero. */
  lemma Wraps(limits: Limits)
    requires U64 / 2 < limits.dailyVolumeLimit < U64 && limits.maxIntentsPerMinute > 0
    ensures !DayLimitHolds(limits)
  {
    hide Next, Prune, Volume, Times;
    var half := U64 / 2 - 1;
    var t1, t2 := Attempt("u", half, 0, 0, true, 0, 0), Attempt("u", 2, 3600, 0, true, 3600, 0);
    var t3 := Attempt("u", half, 7200, 0, true, 7200, 0);
    var a1, a2, a3 := Acceptance("u", half, 0, 0), Acceptance("u", 2, 3600, 0), Acceptance("u", half, 7200, 0);
    var w0 := Start(0, 0);
    var w1, w2 := World(map["u" := Activity([0], half, 0)], [a1], 0, 0), World(map["u" := Activity([3600], half + 2, 0)], [a1, a2], 3600, 0);
    var w3 := World(map["u" := Activity([7200], 0, 0)], [a1, a2, a3], 7200, 0);
    StepTo(limits, w0, t1, [], 0, half, w1);
    StepTo(limits, w1, t2, [0], half, half + 2, w2);
    StepTo(limits, w2, t3, [3600], half + 2, 0, w3);
    ThreeRuns(limits, w0, w1, w2, w3, t1, t2, t3);
    assert Volume(w3.log, "u", 0) == U64 by { ThreeVolumes(a1, a2, a3, "u"); }
  }

  lemma ThreeRuns(limits: Limits, w0: World, w1: World, w2: World, w3: World, t1: Attempt, t2: Attempt, t3: Attempt)
    requires Enabled(w0, t1) && Enabled(w1, t2) && Enabled(w2, t3)
    requires Next(limits, w0, t1) == w1 && Next(limits, w1, t2) == w2 && Next(limits, w2, t3) == w3
    ensures Runs(limits, w0, [t1, t2, t3], w3)
  {
    hide Next, Enabled;
    assert Runs(limits, w3, [], w3);
    assert Runs(limits, w2, [t3], w3);
    assert [t2, t3][1..] == [t3];
    assert Runs(limits, w1, [t2, t3], w3);
    assert [t1, t2, t3][1..] == [t2, t3];
  }

  lemma ThreeVolumes(a1: Acceptance, a2: Acceptance, a3: Acceptance, user: string)
    requires a1.user == a2.user == a3.user == user && a1.day == a2.day == a3.day == 0
    ensures Volume([a1, a2, a3], user, 0) == a1.amount + a2.amount + a3.amount
  {
    LogGrows([], a1, user);
    LogGrows([a1], a2, user);
    LogGrows([a1, a2], a3, user);
    assert [] + [a1] == [a1] && [a1] + [a2] == [a1, a2] && [a1, a2] + [a3] == [a1, a2, a3];
  }

  /** One accepted attempt of a user whose recent entries have all expired. */
  lemma StepTo(limits: Limits, w: World, t: Attempt, recent: seq<int>, volume: nat, volume': nat, w': World)
    requires limits.maxIntentsPerMinute > 0 && t.committed && t.checkedAt == t.recordedAt && t.checkedOn == t.recordedOn == 0
    requires Entry(w.activity, t.user, 0) == Activity(recent, volume, 0)
    requires |recent| <= 1 && forall i :: 0 <= i < |recent| ==> recent[i] <= t.checkedAt - MINUTE
    requires volume' == (volume + t.amount) % U64 && volume' <= limits.dailyVolumeLimit
    requires w' == World(w.activity[t.user := Activity([t.recordedAt], volume', 0)],
                         w.log + [Acceptance(t.user, t.amount, t.recordedAt, 0)], t.recordedAt, 0)
    ensures Next(limits, w, t) == w'
  {
    assert Prune(recent, t.checkedAt - MINUTE) == [];
    assert [] + [t.recordedAt] == [t.recordedAt];
    assert w.activity[t.user := Activity([], volume, 0)][t.user := Activity([t.recordedAt], volume', 0)]
           == w.activity[t.user := Activity([t.recordedAt], volume', 0)];
  }
}
