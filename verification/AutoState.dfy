/** State, settings and per-decision inputs of the Auto relay controller. */
module AutoState {
  import opened Common
  import opened Policy
  import opened TimedWindow
  import opened Samples
  import opened Battery
  import Learning

  /** What a delayed stop is waiting on; the timer is keyed by it. */
  datatype StopKey = GridMissing | NightLock | AutoStop | AutoStopSoc | AutoStopGrid | AutoStopSurplus

  datatype Timers = Timers(startSince: Option<real>, stopSince: Option<real>, stopKey: Option<StopKey>)

  datatype Recovery = Recovery(required: bool, since: Option<real>)

  datatype RelayTimes = RelayTimes(changedAt: Option<real>, offAt: Option<real>)

  datatype Trail = Trail(samples: seq<Sample>, surplus: Option<real>, grid: Option<real>)

  datatype Bands = Bands(highSoc: Option<bool>, evPriority: bool)

  datatype Mode = Mode(cutoverPending: bool, offtimeBypass: bool)

  /** Everything the controller remembers between two decisions. */
  datatype State = State(timers: Timers, recovery: Recovery, times: RelayTimes, trail: Trail, bands: Bands, mode: Mode)

  const NO_TIMERS := Timers(None, None, None)

  const NO_TRAIL := Trail([], None, None)

  const INITIAL := State(NO_TIMERS, Recovery(false, None), RelayTimes(None, None), NO_TRAIL, Bands(None, false),
                         Mode(false, false))

  datatype Settings = Settings(
    startDelay: real, stopDelay: real, averageWindow: real, minRuntime: real, minOfftime: real,
    gridMissingStop: real, startedAt: real, warmup: real, overrideUntil: real,
    allowWithoutSoc: bool, nightLockStop: bool)

  /** One decision's view of the world. Times are arbitrary: nothing here says that clocks only go forward. */
  datatype Inputs = Inputs(
    now: real, relayOn: bool, pv: Option<real>, soc: Option<real>, grid: Option<real>, gridReadAt: Option<real>,
    autoMode: bool, enabled: bool, autostart: bool, cutoverOffConfirmed: bool, nightBoost: bool, daytime: bool,
    battery: BatteryInputs, learned: Learning.LearnedPower, chargingPower: real,
    settings: Settings, policy: PolicyValues)

  /** What the metrics stage hands to a decision: the updated state and the values it compares. */
  datatype Observation = Observation(state: State, surplus: real, grid: real, thresholds: ProfileValues)

  /** What the runtime guarantees about the settings: a clamped policy and a nonnegative averaging window. */
  predicate Usable(i: Inputs) {
    InRange(i.policy) && i.settings.averageWindow >= 0.0
  }

  // ---- Conditions a decision looks at ----

  predicate MinRuntimeElapsed(t: RelayTimes, i: Inputs) {
    t.changedAt.None? || i.now - t.changedAt.value >= i.settings.minRuntime
  }

  predicate MinOfftimeElapsed(s: State, i: Inputs) {
    s.mode.offtimeBypass || s.times.offAt.None? || i.now - s.times.offAt.value >= i.settings.minOfftime
  }

  predicate GridFresh(i: Inputs) {
    if i.gridReadAt.None? then i.grid.Some? else i.now - i.gridReadAt.value <= i.settings.gridMissingStop
  }

  predicate Warming(i: Inputs) { i.now - i.settings.startedAt < i.settings.warmup }

  predicate Overridden(i: Inputs) { i.now < i.settings.overrideUntil }

  predicate HeldOff(i: Inputs) { Warming(i) || Overridden(i) }

  /** A usable SOC: a valid reading, or the resume SOC when missing readings are allowed. */
  function ResolvedSoc(i: Inputs): Option<real> {
    if i.soc.Some? && 0.0 <= i.soc.value <= 100.0 then i.soc
    else if i.settings.allowWithoutSoc then Some(i.policy.resumeSoc)
    else None
  }

  predicate RecoveryWaiting(r: Recovery, i: Inputs) {
    r.required && i.policy.gridRecovery > 0.0 && (r.since.None? || i.now - r.since.value < i.policy.gridRecovery)
  }

  // ---- Elementary updates ----

  function SamplesCleared(s: State): State {
    s.(trail := NO_TRAIL)
  }

  function TimersReset(s: State): State {
    s.(timers := NO_TIMERS, trail := NO_TRAIL)
  }

  function StartCleared(s: State): State {
    s.(timers := s.timers.(startSince := None))
  }

  function StopCleared(s: State): State {
    s.(timers := s.timers.(stopSince := None, stopKey := None))
  }

  /** What the rest of the service can make the controller forget: nothing, its timers when a charging session ends, or
      start, stop and samples when the mode is written. */
  datatype Forgetting = Nothing | Tracking | DecisionState

  function Forgotten(s: State, f: Forgetting): State {
    match f
    case Nothing => s
    case Tracking => s.(timers := NO_TIMERS)
    case DecisionState => s.(timers := s.timers.(startSince := None, stopSince := None), trail := NO_TRAIL)
  }

  function RelayMarked(s: State, on: bool, at: real): State {
    s.(times := if on then s.times.(changedAt := Some(at)) else RelayTimes(Some(at), Some(at)))
  }
}
