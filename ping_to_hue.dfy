/** The program of py_ping2hue.py around the quality pipeline: building the
    on/off schedulers from the configuration, and one iteration of the main loop.

    Every call of `set_lights_state` is recorded, in order, in a CallLog of
    LightCommand values; the HTTP requests it makes are not part of this model. */
module PingToHue {
  import opened Wrappers
  import opened PingQuality
  import opened Schedule

  /** Pings taken per iteration of the main loop (`collect_pings(5)`). */
  const PINGS_PER_TICK: nat := 5
  /** Saturation of every health-driven write. */
  const SATURATION: int := 255
  /** ISO weekdays of an event that names none: Monday to Saturday. */
  const DEFAULT_ISOWEEKDAYS: seq<int> := [1, 2, 3, 4, 5, 6]

  /** The body of a Hue light-state request: a key is either sent or absent. */
  datatype LightState = LightState(on: Option<bool>, hue: Option<int>, bri: Option<int>, sat: Option<int>)

  /** `set_lights_state(lights, state)`. */
  datatype LightCommand = LightCommand(lights: seq<int>, state: LightState)

  /** One entry of `auto_switch.on` or `auto_switch.off`; every key may be absent. */
  datatype SwitchEvent = SwitchEvent(isoweekdays: Option<seq<int>>, hour: Option<int>, minute: Option<int>, second: Option<int>)

  /** The `auto_switch` section; each list may be absent. */
  datatype AutoSwitch = AutoSwitch(on: Option<seq<SwitchEvent>>, off: Option<seq<SwitchEvent>>)

  /** The configuration the core reads. */
  datatype Config = Config(lightIds: seq<int>, pingRange: PingRange, autoSwitch: Option<AutoSwitch>)

  /** Startup failures: an event without `hour` (KeyError), a time of day out of range (ValueError). */
  datatype ConfigError = MissingHour | InvalidTime

  /** The request that switches the lights on or off and changes nothing else. */
  function SwitchCommand(lights: seq<int>, on: bool): (c: LightCommand)
    ensures c.lights == lights && c.state.on == Some(on)
    ensures c.state.hue.None? && c.state.bri.None? && c.state.sat.None?
  {
    LightCommand(lights, LightState(Some(on), None, None, None))
  }

  /** The health-driven state for a quality: hue, brightness and full saturation, no on/off key. */
  function HealthState(quality: real): (st: LightState)
    ensures st.on.None? && st.sat == Some(SATURATION) && st.hue.Some? && st.bri.Some?
    ensures 0.0 <= quality <= 1.0 ==> 0 <= st.hue.value <= HUE_VAL_GREEN && 0 <= st.bri.value <= MAX_BRI
  {
    LightState(None, Some(CalcHue(quality)), Some(CalcBri(quality)), Some(SATURATION))
  }

  /** The health-driven request of one iteration, for the window of samples it collected. */
  function HealthCommand(cfg: Config, samples: seq<Option<real>>): (c: LightCommand)
    ensures c.lights == cfg.lightIds && c.state.on.None? && c.state.hue.Some? && c.state.bri.Some?
    ensures 0.0 <= cfg.pingRange.lossFactor <= 1.0 ==>
      HUE_VAL_RED <= c.state.hue.value <= HUE_VAL_GREEN && 0 <= c.state.bri.value <= MAX_BRI
  {
    var q := Quality(Aggregate(samples), cfg.pingRange);
    assert 0.0 <= cfg.pingRange.lossFactor <= 1.0 ==> 0.0 <= q <= 1.0 by {
      if 0.0 <= cfg.pingRange.lossFactor <= 1.0 {
        QualityInUnitInterval(Aggregate(samples), cfg.pingRange);
      }
    }
    LightCommand(cfg.lightIds, HealthState(q))
  }

  // ---------------------------------------------------------------------------
  // init_on_off_scheduler
  // ---------------------------------------------------------------------------

  /** The trigger an event describes, with the defaults for absent keys. */
  function EventTrigger(e: SwitchEvent): (r: Result<Trigger, ConfigError>)
    ensures e.hour.None? ==> r == Failure(MissingHour)
    ensures r.Success? <==> e.hour.Some? && ValidTimeOfDay(e.hour.value, e.minute.GetOr(0), e.second.GetOr(0))
    ensures r.Success? ==> 0 <= r.value.executionTime < SECONDS_PER_DAY
  {
    if e.hour.None? then Failure(MissingHour)
    else
      var hour, minute, second := e.hour.value, e.minute.GetOr(0), e.second.GetOr(0);
      if !ValidTimeOfDay(hour, minute, second) then Failure(InvalidTime)
      else Success(Trigger(e.isoweekdays.GetOr(DEFAULT_ISOWEEKDAYS), SecondsOfDay(hour, minute, second)))
  }

  /** The schedulers for a list of events, all bound to `cmd`; the first bad event aborts. */
  function EventsPlan(events: seq<SwitchEvent>, cmd: LightCommand): (r: Result<seq<(Trigger, LightCommand)>, ConfigError>)
    ensures r.Success? ==> |r.value| == |events|
    ensures r.Success? ==> forall i :: 0 <= i < |events| ==> EventTrigger(events[i]) == Success(r.value[i].0) && r.value[i].1 == cmd
    ensures r.Failure? <==> exists i :: 0 <= i < |events| && EventTrigger(events[i]).Failure?
    decreases |events|
  {
    if events == [] then Success([])
    else
      var prefix :- EventsPlan(events[..|events| - 1], cmd);
      var trigger :- EventTrigger(events[|events| - 1]);
      Success(prefix + [(trigger, cmd)])
  }

  /** What init_on_off_scheduler builds: one scheduler per "on" event, then one per "off" event. */
  function Plan(cfg: Config): (r: Result<seq<(Trigger, LightCommand)>, ConfigError>)
    ensures cfg.autoSwitch.None? ==> r == Success([])
    ensures r.Success? && cfg.autoSwitch.Some? ==>
      |r.value| == |cfg.autoSwitch.value.on.GetOr([])| + |cfg.autoSwitch.value.off.GetOr([])|
  {
    match cfg.autoSwitch
    case None => Success([])
    case Some(sw) =>
      var ons :- EventsPlan(sw.on.GetOr([]), SwitchCommand(cfg.lightIds, true));
      var offs :- EventsPlan(sw.off.GetOr([]), SwitchCommand(cfg.lightIds, false));
      Success(ons + offs)
  }

  /** Without an `auto_switch` section there are no schedulers. */
  lemma PlanWithoutAutoSwitch(cfg: Config)
    requires cfg.autoSwitch.None?
    ensures Plan(cfg) == Success([])
  {
  }

  /** The schedulers are the "on" events switching on, in order, followed by the "off" events switching off. */
  lemma PlanOnThenOff(cfg: Config)
    requires cfg.autoSwitch.Some? && Plan(cfg).Success?
    ensures var ons, offs, ps := cfg.autoSwitch.value.on.GetOr([]), cfg.autoSwitch.value.off.GetOr([]), Plan(cfg).value;
      && |ps| == |ons| + |offs|
      && (forall i :: 0 <= i < |ons| ==>
            EventTrigger(ons[i]) == Success(ps[i].0) && ps[i].1 == SwitchCommand(cfg.lightIds, true))
      && (forall i :: |ons| <= i < |ps| ==>
            EventTrigger(offs[i - |ons|]) == Success(ps[i].0) && ps[i].1 == SwitchCommand(cfg.lightIds, false))
  {
    var sw := cfg.autoSwitch.value;
    var ons := EventsPlan(sw.on.GetOr([]), SwitchCommand(cfg.lightIds, true));
    var offs := EventsPlan(sw.off.GetOr([]), SwitchCommand(cfg.lightIds, false));
    assert Plan(cfg).value == ons.value + offs.value;
  }

  /** Startup fails exactly when some "on" or "off" event lacks an hour or has an invalid time. */
  lemma PlanFailsIffBadEvent(cfg: Config)
    requires cfg.autoSwitch.Some?
    ensures var events := cfg.autoSwitch.value.on.GetOr([]) + cfg.autoSwitch.value.off.GetOr([]);
      Plan(cfg).Failure? <==> exists i :: 0 <= i < |events| && EventTrigger(events[i]).Failure?
  {
    var sw := cfg.autoSwitch.value;
    var ons, offs := sw.on.GetOr([]), sw.off.GetOr([]);
    var events := ons + offs;
    var onPlan := EventsPlan(ons, SwitchCommand(cfg.lightIds, true));
    var offPlan := EventsPlan(offs, SwitchCommand(cfg.lightIds, false));
    assert Plan(cfg).Failure? <==> onPlan.Failure? || offPlan.Failure?;
    if onPlan.Failure? {
      var i :| 0 <= i < |ons| && EventTrigger(ons[i]).Failure?;
      assert events[i] == ons[i];
    } else if offPlan.Failure? {
      var i :| 0 <= i < |offs| && EventTrigger(offs[i]).Failure?;
      assert events[|ons| + i] == offs[i];
    } else {
      forall i | 0 <= i < |events| ensures EventTrigger(events[i]).Success? {
        if i < |ons| {
          assert events[i] == ons[i];
        } else {
          assert events[i] == offs[i - |ons|];
        }
      }
    }
  }

  /** An event giving only an hour fires Monday to Saturday at that full hour. */
  lemma EventDefaults(e: SwitchEvent, hour: int)
    requires e == SwitchEvent(None, Some(hour), None, None) && 0 <= hour < 24
    ensures EventTrigger(e) == Success(Trigger([1, 2, 3, 4, 5, 6], hour * 3600))
  {
  }

  /** A failing plan for a prefix of the events is the failing plan for all of them. */
  lemma {:induction false} EventsPlanFailureExtends(events: seq<SwitchEvent>, cmd: LightCommand, k: nat)
    requires k <= |events| && EventsPlan(events[..k], cmd).Failure?
    ensures EventsPlan(events, cmd) == EventsPlan(events[..k], cmd)
    decreases |events|
  {
    if k < |events| {
      assert events[..|events| - 1][..k] == events[..k];
      EventsPlanFailureExtends(events[..|events| - 1], cmd, k);
    } else {
      assert events[..k] == events;
    }
  }

  /** The configuration of the schedulers in `ss`. */
  function Plans(ss: seq<SchedFunc<LightCommand>>): seq<(Trigger, LightCommand)>
  {
    seq(|ss|, i requires 0 <= i < |ss| => (ss[i].AsTrigger(), ss[i].func))
  }

  /** One loop of init_on_off_scheduler: append a scheduler, created at `now`, for each event. */
  method AddSchedulers(events: seq<SwitchEvent>, cmd: LightCommand, now: int, schedulers: seq<SchedFunc<LightCommand>>)
    returns (r: Result<seq<SchedFunc<LightCommand>>, ConfigError>)
    ensures EventsPlan(events, cmd).Failure? ==> r == Failure(EventsPlan(events, cmd).error)
    ensures EventsPlan(events, cmd).Success? ==> r.Success? && |r.value| == |schedulers| + |events|
    ensures r.Success? ==> r.value[..|schedulers|] == schedulers && Plans(r.value[|schedulers|..]) == EventsPlan(events, cmd).value
    ensures r.Success? ==> forall k :: |schedulers| <= k < |r.value| ==> fresh(r.value[k]) && r.value[k].State() == Initial(now)
    ensures r.Success? ==> forall k, l :: |schedulers| <= k < l < |r.value| ==> r.value[k] != r.value[l]
  {
    var out := schedulers;
    for i := 0 to |events|
      invariant EventsPlan(events[..i], cmd).Success?
      invariant |out| == |schedulers| + i && out[..|schedulers|] == schedulers
      invariant Plans(out[|schedulers|..]) == EventsPlan(events[..i], cmd).value
      invariant forall k :: |schedulers| <= k < |out| ==> fresh(out[k]) && out[k].State() == Initial(now)
      invariant forall k, l :: |schedulers| <= k < l < |out| ==> out[k] != out[l]
    {
      var event := events[i];
      assert events[..i + 1][..i] == events[..i];
      if event.hour.None? {
        EventsPlanFailureExtends(events, cmd, i + 1);
        return Failure(MissingHour);
      }
      var hour := event.hour.value;
      var minute := event.minute.GetOr(0);
      var second := event.second.GetOr(0);
      if !ValidTimeOfDay(hour, minute, second) {
        EventsPlanFailureExtends(events, cmd, i + 1);
        return Failure(InvalidTime);
      }
      var scheduler := new SchedFunc(event.isoweekdays.GetOr(DEFAULT_ISOWEEKDAYS), hour, minute, second, cmd, now);
      out := out + [scheduler];
    }
    assert events[..|events|] == events;
    r := Success(out);
  }

  /** init_on_off_scheduler, with the clock reading `now` at startup. */
  method InitOnOffScheduler(cfg: Config, now: int) returns (r: Result<seq<SchedFunc<LightCommand>>, ConfigError>)
    ensures r.Failure? <==> Plan(cfg).Failure?
    ensures r.Failure? ==> r.error == Plan(cfg).error
    ensures r.Success? ==> Plans(r.value) == Plan(cfg).value
    ensures r.Success? ==> forall k :: 0 <= k < |r.value| ==> fresh(r.value[k]) && r.value[k].State() == Initial(now)
    ensures r.Success? ==> forall k, l :: 0 <= k < l < |r.value| ==> r.value[k] != r.value[l]
  {
    if cfg.autoSwitch.None? {
      return Success([]);
    }
    var sw := cfg.autoSwitch.value;
    var ons := AddSchedulers(sw.on.GetOr([]), SwitchCommand(cfg.lightIds, true), now, []);
    if ons.Failure? {
      return Failure(ons.error);
    }
    var all := AddSchedulers(sw.off.GetOr([]), SwitchCommand(cfg.lightIds, false), now, ons.value);
    if all.Failure? {
      return Failure(all.error);
    }
    var n := |ons.value|;
    assert all.value == all.value[..n] + all.value[n..];
    r := all;
  }

  // ---------------------------------------------------------------------------
  // One iteration of main
  // ---------------------------------------------------------------------------

  /** The calls the schedulers in `ss` make when each is processed at `now`, in list order. */
  ghost function FiredCalls(ss: seq<SchedFunc<LightCommand>>, now: int): seq<LightCommand>
    reads ss
  {
    if ss == [] then []
    else
      var last := ss[|ss| - 1];
      FiredCalls(ss[..|ss| - 1], now)
        + (if Fires(last.AsTrigger(), last.State(), now) then [last.func, last.func, last.func, last.func] else [])
  }

  /** One iteration of the main loop: process every scheduler, then collect the pings,
      score them and write the health-driven state to the lights. */
  method Tick(cfg: Config, schedulers: seq<SchedFunc<LightCommand>>, sink: CallLog<LightCommand>,
              samples: seq<Option<real>>, now: int)
    requires |samples| == PINGS_PER_TICK
    requires forall k, l :: 0 <= k < l < |schedulers| ==> schedulers[k] != schedulers[l]
    modifies schedulers, sink
    ensures forall k :: 0 <= k < |schedulers| ==>
      schedulers[k].State() == Step(schedulers[k].AsTrigger(), old(schedulers[k].State()), now)
    ensures sink.calls == old(sink.calls) + old(FiredCalls(schedulers, now)) + [HealthCommand(cfg, samples)]
  {
    for i := 0 to |schedulers|
      invariant forall k :: 0 <= k < i ==>
        schedulers[k].State() == Step(schedulers[k].AsTrigger(), old(schedulers[k].State()), now)
      invariant forall k :: i <= k < |schedulers| ==> schedulers[k].State() == old(schedulers[k].State())
      invariant sink.calls == old(sink.calls) + old(FiredCalls(schedulers[..i], now))
    {
      assert schedulers[..i + 1][..i] == schedulers[..i];
      schedulers[i].Process(now, sink);
    }
    assert schedulers[..|schedulers|] == schedulers;
    var pingResult := CollectPings(samples);
    var q := CalculateQuality(pingResult, cfg.pingRange);
    var newHue := CalcHue(q);
    var newBri := CalcBri(q);
    var newState := LightState(None, Some(newHue), Some(newBri), Some(SATURATION));
    sink.Record(LightCommand(cfg.lightIds, newState));
  }

  /** Whether the lights are on after a sequence of requests, starting from `on`:
      the last request that sends an on/off key decides. */
  function OnAfter(on: bool, calls: seq<LightCommand>): bool
    decreases |calls|
  {
    if calls == [] then on else OnAfter(calls[0].state.on.GetOr(on), calls[1..])
  }

  /** The health-driven write never changes whether the lights are on: after a tick,
      on/off is whatever the schedulers' requests left it at. */
  lemma {:induction false} HealthWriteKeepsOnOff(on: bool, calls: seq<LightCommand>, lights: seq<int>, quality: real)
    ensures OnAfter(on, calls + [LightCommand(lights, HealthState(quality))]) == OnAfter(on, calls)
    decreases |calls|
  {
    if calls != [] {
      assert (calls + [LightCommand(lights, HealthState(quality))])[1..] == calls[1..] + [LightCommand(lights, HealthState(quality))];
      HealthWriteKeepsOnOff(calls[0].state.on.GetOr(on), calls[1..], lights, quality);
    }
  }

  /** An on/off request decides: after it the lights are in the state it asks for,
      whatever came before. */
  lemma {:induction false} SwitchDecides(on: bool, calls: seq<LightCommand>, lights: seq<int>, b: bool)
    ensures OnAfter(on, calls + [SwitchCommand(lights, b)]) == b
    decreases |calls|
  {
    if calls != [] {
      assert (calls + [SwitchCommand(lights, b)])[1..] == calls[1..] + [SwitchCommand(lights, b)];
      SwitchDecides(calls[0].state.on.GetOr(on), calls[1..], lights, b);
    } else {
      assert [SwitchCommand(lights, b)][1..] == [];
    }
  }

  /** The example window: 40, 45 and 50 ms, a loss, 42 ms; green 50 ms, red 400 ms, loss factor 0.8.
      The mean of the four answers is below green, the one loss leaves quality 0.8,
      and truncation gives hue 19876 and brightness 25. */
  lemma ExampleWindow()
    ensures var samples := [Some(0.040), Some(0.045), Some(0.050), None, Some(0.042)];
      var r := Aggregate(samples);
      && r == MultiPingResult(5, 0.04425, 1)
      && Quality(r, PingRange(0.050, 0.400, 0.8)) == 0.8
      && HealthState(0.8) == LightState(None, Some(19876), Some(25), Some(255))
  {
    ExampleCounts();
    var r := MultiPingResult(5, 0.04425, 1);
    assert BaseQuality(r.meanResponseTime, PingRange(0.050, 0.400, 0.8)) == 1.0;
    assert LossPenalty(0.8, 1) == 0.8;
  }

  lemma ExampleCounts()
    ensures var samples := [Some(0.040), Some(0.045), Some(0.050), None, Some(0.042)];
      LostCount(samples) == 1 && SuccessSum(samples) == 0.177
  {
    var samples := [Some(0.040), Some(0.045), Some(0.050), None, Some(0.042)];
    var p1, p2, p3, p4 := samples[..1], samples[..2], samples[..3], samples[..4];
    assert p1[..0] == [] && p2[..1] == p1 && p3[..2] == p2 && p4[..3] == p3 && samples[..4] == p4;
    assert LostCount(p1) == 0 && SuccessSum(p1) == 0.040;
    assert LostCount(p2) == 0 && SuccessSum(p2) == 0.085;
    assert LostCount(p3) == 0 && SuccessSum(p3) == 0.135;
    assert LostCount(p4) == 1 && SuccessSum(p4) == 0.135;
  }
}
