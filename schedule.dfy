/** The time-of-day trigger of schedfunc.py (class SchedFunc).

    Wall-clock time is one integer `now`: seconds since 1970-01-01 00:00 in
    local time. The calendar day is `now / 86400`, the time of day `now % 86400`
    and day 0 is a Thursday. A trigger fires its action when the scheduled
    instant of today lies strictly inside the gap since the previous check, on an
    allowed ISO weekday, and at most once per day.

    The pure part (Trigger, TriggerState, Step, FireTimes) states the state
    machine and what a sequence of checks does; the class SchedFunc is the
    object the program updates in place, proved against Step. */
module Schedule {

  const SECONDS_PER_DAY: int := 86400

  /** The calendar day of an instant (day 0 is 1970-01-01). */
  function Day(now: int): (d: int)
    ensures d * SECONDS_PER_DAY <= now < d * SECONDS_PER_DAY + SECONDS_PER_DAY
  {
    now / SECONDS_PER_DAY
  }

  /** The time of day of an instant, in seconds since midnight. */
  function TimeOfDay(now: int): (t: int)
    ensures 0 <= t < SECONDS_PER_DAY
    ensures now == Day(now) * SECONDS_PER_DAY + t
  {
    now % SECONDS_PER_DAY
  }

  /** ISO weekday of a day number: Monday is 1, Sunday is 7, 1970-01-01 was a Thursday. */
  function IsoWeekday(day: int): (w: int)
    ensures 1 <= w <= 7
  {
    (day + 3) % 7 + 1
  }

  /** The ranges Python's `datetime.time` accepts for hour, minute and second. */
  predicate ValidTimeOfDay(hour: int, minute: int, second: int)
  {
    0 <= hour < 24 && 0 <= minute < 60 && 0 <= second < 60
  }

  /** `time(hour, minute, second)` as seconds since midnight. */
  function SecondsOfDay(hour: int, minute: int, second: int): (t: int)
    requires ValidTimeOfDay(hour, minute, second)
    ensures 0 <= t < SECONDS_PER_DAY
    ensures t / 3600 == hour && t % 3600 / 60 == minute && t % 60 == second
  {
    hour * 3600 + minute * 60 + second
  }

  /** What a trigger is configured with: the allowed ISO weekdays and the time of day. */
  datatype Trigger = Trigger(isoweekdays: seq<int>, executionTime: int)

  /** What a trigger remembers: the day it last fired and the instant it was last checked. */
  datatype TriggerState = TriggerState(lastExecutedOn: int, lastCheckedAt: int)

  /** The scheduled instant on a given day. */
  function ExecuteAt(t: Trigger, day: int): (at: int)
    ensures 0 <= t.executionTime < SECONDS_PER_DAY ==> Day(at) == day && TimeOfDay(at) == t.executionTime
  {
    day * SECONDS_PER_DAY + t.executionTime
  }

  /** The state of a trigger created at `now`: executed "yesterday", checked now. */
  function Initial(now: int): (s: TriggerState)
    ensures s.lastExecutedOn < Day(now) && s.lastCheckedAt == now
  {
    TriggerState(Day(now) - 1, now)
  }

  /** A check at `now` fires: not yet executed today, today is an allowed weekday,
      and today's instant lies strictly between the previous check and now. */
  predicate Fires(t: Trigger, s: TriggerState, now: int): (fires: bool)
    ensures fires ==> s.lastCheckedAt < now && s.lastExecutedOn != Day(now)
    ensures fires && 0 <= t.executionTime < SECONDS_PER_DAY ==> t.executionTime < TimeOfDay(now)
  {
    && s.lastExecutedOn != Day(now)
    && IsoWeekday(Day(now)) in t.isoweekdays
    && s.lastCheckedAt < ExecuteAt(t, Day(now)) < now
  }

  /** The state after a check at `now`. */
  function Step(t: Trigger, s: TriggerState, now: int): (r: TriggerState)
    ensures Fires(t, s, now) <==> r.lastExecutedOn != s.lastExecutedOn
    ensures Fires(t, s, now) ==> r == TriggerState(Day(now), now)
    ensures r.lastCheckedAt == s.lastCheckedAt || r.lastCheckedAt == now
  {
    if s.lastExecutedOn == Day(now) then s.(lastCheckedAt := now)
    else if IsoWeekday(Day(now)) !in t.isoweekdays then s.(lastCheckedAt := now)
    else if s.lastCheckedAt < ExecuteAt(t, Day(now)) < now then TriggerState(Day(now), now)
    else s
  }

  /** The instants at which a sequence of checks fires, starting from state `s`. */
  function FireTimes(t: Trigger, s: TriggerState, nows: seq<int>): (fs: seq<int>)
    ensures |fs| <= |nows|
    decreases |nows|
  {
    if nows == [] then []
    else (if Fires(t, s, nows[0]) then [nows[0]] else []) + FireTimes(t, Step(t, s, nows[0]), nows[1..])
  }

  predicate NonDecreasing(nows: seq<int>)
  {
    forall i, j :: 0 <= i < j < |nows| ==> nows[i] <= nows[j]
  }

  /** The instants fall on strictly increasing days. */
  predicate DaysIncreasing(fs: seq<int>)
  {
    forall i, j :: 0 <= i < j < |fs| ==> Day(fs[i]) < Day(fs[j])
  }

  lemma DayMonotone(a: int, b: int)
    requires a <= b
    ensures Day(a) <= Day(b)
  {
  }

  lemma DayOfInstant(day: int, t: int)
    requires 0 <= t < SECONDS_PER_DAY
    ensures Day(day * SECONDS_PER_DAY + t) == day
  {
    var n := day * SECONDS_PER_DAY + t;
    assert n == Day(n) * SECONDS_PER_DAY + TimeOfDay(n);
  }

  /** Checks that never go back in time, starting no earlier than the last
      execution day, fire only on days after that day. */
  lemma {:induction false} FiresAfterLastExecuted(t: Trigger, s: TriggerState, nows: seq<int>)
    requires NonDecreasing(nows)
    requires |nows| > 0 ==> s.lastExecutedOn <= Day(nows[0])
    ensures forall f :: f in FireTimes(t, s, nows) ==> s.lastExecutedOn < Day(f)
    decreases |nows|
  {
    if nows != [] {
      var n := nows[0];
      var s' := Step(t, s, n);
      if |nows| > 1 {
        DayMonotone(n, nows[1]);
      }
      FiresAfterLastExecuted(t, s', nows[1..]);
    }
  }

  /** For checks that never go back in time, the firing instants fall on strictly
      increasing days: a trigger fires at most once per calendar day. */
  lemma {:induction false} FiresAtMostOncePerDay(t: Trigger, s: TriggerState, nows: seq<int>)
    requires NonDecreasing(nows)
    requires |nows| > 0 ==> s.lastExecutedOn <= Day(nows[0])
    ensures DaysIncreasing(FireTimes(t, s, nows))
    decreases |nows|
  {
    if nows != [] {
      var n := nows[0];
      var s' := Step(t, s, n);
      if |nows| > 1 {
        DayMonotone(n, nows[1]);
      }
      FiresAtMostOncePerDay(t, s', nows[1..]);
      var rest := FireTimes(t, s', nows[1..]);
      if Fires(t, s, n) {
        FiresAfterLastExecuted(t, s', nows[1..]);
        var fs := FireTimes(t, s, nows);
        assert fs == [n] + rest;
        forall i, j | 0 <= i < j < |fs| ensures Day(fs[i]) < Day(fs[j]) {
          assert fs[j] == rest[j - 1] && rest[j - 1] in rest;
          if i > 0 {
            assert fs[i] == rest[i - 1];
          }
        }
      } else {
        assert FireTimes(t, s, nows) == rest;
      }
    }
  }

  /** Once the trigger has fired on day `d`, no further check on day `d` fires. */
  lemma {:induction false} NoFireAfterExecutedToday(t: Trigger, s: TriggerState, d: int, nows: seq<int>)
    requires s.lastExecutedOn == d
    requires forall i :: 0 <= i < |nows| ==> Day(nows[i]) == d
    ensures FireTimes(t, s, nows) == []
    decreases |nows|
  {
    if nows != [] {
      NoFireAfterExecutedToday(t, Step(t, s, nows[0]), d, nows[1..]);
    }
  }

  /** On a day whose ISO weekday is not allowed, no check fires. */
  lemma {:induction false} NoFireOnExcludedWeekday(t: Trigger, s: TriggerState, d: int, nows: seq<int>)
    requires IsoWeekday(d) !in t.isoweekdays
    requires forall i :: 0 <= i < |nows| ==> Day(nows[i]) == d
    ensures FireTimes(t, s, nows) == []
    decreases |nows|
  {
    if nows != [] {
      NoFireOnExcludedWeekday(t, Step(t, s, nows[0]), d, nows[1..]);
    }
  }

  /** Once the last check lies at or after today's instant, no check later that day fires. */
  lemma {:induction false} NoFireOnceCheckedPastInstant(t: Trigger, s: TriggerState, d: int, nows: seq<int>)
    requires ExecuteAt(t, d) <= s.lastCheckedAt
    requires forall i :: 0 <= i < |nows| ==> Day(nows[i]) == d && ExecuteAt(t, d) <= nows[i]
    ensures FireTimes(t, s, nows) == []
    decreases |nows|
  {
    if nows != [] {
      NoFireOnceCheckedPastInstant(t, Step(t, s, nows[0]), d, nows[1..]);
    }
  }

  /** A trigger created at or after today's instant does not fire for any later check that same day. */
  lemma CreatedAfterInstantNoFireThatDay(t: Trigger, created: int, nows: seq<int>)
    requires t.executionTime <= TimeOfDay(created)
    requires forall i :: 0 <= i < |nows| ==> Day(nows[i]) == Day(created) && created <= nows[i]
    ensures FireTimes(t, Initial(created), nows) == []
  {
    NoFireOnceCheckedPastInstant(t, Initial(created), Day(created), nows);
  }

  /** The first element of `nows` strictly after `x`, as a sequence of at most one element. */
  function FirstAfter(nows: seq<int>, x: int): (r: seq<int>)
    ensures |r| <= 1
    ensures r != [] ==> r[0] in nows && x < r[0]
  {
    if nows == [] then []
    else if x < nows[0] then [nows[0]]
    else FirstAfter(nows[1..], x)
  }

  /** An armed trigger (not executed on day `d`, weekday allowed, last checked
      before the instant) fires exactly once over checks on day `d`: at the first
      check after the instant, however long the gap before it. */
  lemma {:induction false} FiresAtFirstCheckAfterInstant(t: Trigger, s: TriggerState, d: int, nows: seq<int>)
    requires s.lastExecutedOn != d && IsoWeekday(d) in t.isoweekdays
    requires s.lastCheckedAt < ExecuteAt(t, d)
    requires forall i :: 0 <= i < |nows| ==> Day(nows[i]) == d
    ensures FireTimes(t, s, nows) == FirstAfter(nows, ExecuteAt(t, d))
    decreases |nows|
  {
    if nows != [] {
      var n := nows[0];
      if ExecuteAt(t, d) < n {
        NoFireAfterExecutedToday(t, Step(t, s, n), d, nows[1..]);
      } else {
        FiresAtFirstCheckAfterInstant(t, s, d, nows[1..]);
      }
    }
  }

  /** Checked 10 s before the instant, then 10 s and 20 s after it: fires once, at the first of the two. */
  lemma ShortGapFiresOnce(t: Trigger, d: int)
    requires IsoWeekday(d) in t.isoweekdays
    requires 10 <= t.executionTime < SECONDS_PER_DAY - 20
    ensures var at := ExecuteAt(t, d);
      FireTimes(t, TriggerState(d - 1, at - 10), [at + 10, at + 20]) == [at + 10]
  {
    var at := ExecuteAt(t, d);
    DayOfInstant(d, t.executionTime + 10);
    DayOfInstant(d, t.executionTime + 20);
    FiresAtFirstCheckAfterInstant(t, TriggerState(d - 1, at - 10), d, [at + 10, at + 20]);
  }

  /** Checked an hour before the instant and next an hour after it: the gap spans the instant and the check fires. */
  lemma LongGapStillFires(t: Trigger, d: int)
    requires IsoWeekday(d) in t.isoweekdays
    requires 3600 <= t.executionTime < SECONDS_PER_DAY - 3600
    ensures var at := ExecuteAt(t, d);
      FireTimes(t, TriggerState(d - 1, at - 3600), [at + 3600]) == [at + 3600]
  {
    var at := ExecuteAt(t, d);
    DayOfInstant(d, t.executionTime + 3600);
    FiresAtFirstCheckAfterInstant(t, TriggerState(d - 1, at - 3600), d, [at + 3600]);
  }

  /** The sink the scheduled callables act on: every invocation is recorded, in order. */
  class CallLog<A> {
    var calls: seq<A>

    constructor ()
      ensures calls == []
    {
      calls := [];
    }

    /** Invoke `a`. */
    method Record(a: A)
      modifies this
      ensures calls == old(calls) + [a]
    {
      calls := calls + [a];
    }
  }

  /** SchedFunc: calls `func` once a day, at `executionTime`, on the given ISO weekdays. */
  class SchedFunc<A> {
    const isoweekdays: seq<int>
    const executionTime: int
    const func: A
    var lastExecutedOn: int
    var lastCheckedAt: int

    function AsTrigger(): Trigger
    {
      Trigger(isoweekdays, executionTime)
    }

    function State(): TriggerState
      reads this
    {
      TriggerState(lastExecutedOn, lastCheckedAt)
    }

    /** A trigger created at `now`. `time(hour, minute, second)` raises on an out-of-range
        value, so the time of day must be valid. */
    constructor (isoweekdays: seq<int>, hour: int, minute: int, second: int, func: A, now: int)
      requires ValidTimeOfDay(hour, minute, second)
      ensures this.isoweekdays == isoweekdays && this.func == func
      ensures executionTime == SecondsOfDay(hour, minute, second)
      ensures lastExecutedOn == Day(now) - 1 && lastCheckedAt == now
      ensures State() == Initial(now)
    {
      this.isoweekdays := isoweekdays;
      executionTime := SecondsOfDay(hour, minute, second);
      this.func := func;
      lastExecutedOn := Day(now) - 1;
      lastCheckedAt := now;
    }

    /** process: check the trigger at `now`; on firing, `func` is invoked on `log` (four times, schedfunc.py:51-54). */
    method Process(now: int, log: CallLog<A>)
      modifies this, log
      ensures old(lastExecutedOn) == Day(now) ==>
        lastExecutedOn == old(lastExecutedOn) && lastCheckedAt == now && log.calls == old(log.calls)
      ensures old(lastExecutedOn) != Day(now) && IsoWeekday(Day(now)) !in isoweekdays ==>
        lastExecutedOn == old(lastExecutedOn) && lastCheckedAt == now && log.calls == old(log.calls)
      ensures Fires(AsTrigger(), old(State()), now) ==>
        lastExecutedOn == Day(now) && lastCheckedAt == now && log.calls == old(log.calls) + [func, func, func, func]
      ensures old(lastExecutedOn) != Day(now) && IsoWeekday(Day(now)) in isoweekdays && !Fires(AsTrigger(), old(State()), now) ==>
        lastExecutedOn == old(lastExecutedOn) && lastCheckedAt == old(lastCheckedAt) && log.calls == old(log.calls)
      ensures State() == Step(AsTrigger(), old(State()), now)
    {
      if lastExecutedOn == Day(now) {
        lastCheckedAt := now;
        return;
      }
      var today := IsoWeekday(Day(now));
      if today !in isoweekdays {
        lastCheckedAt := now;
        return;
      }
      var executeAt := ExecuteAt(AsTrigger(), Day(now));
      if lastCheckedAt < executeAt < now {
        lastCheckedAt := now;
        lastExecutedOn := Day(now);
        log.Record(func);
        log.Record(func);
        log.Record(func);
        log.Record(func);
      }
    }
  }
}
