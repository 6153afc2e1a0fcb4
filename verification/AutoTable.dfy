/** The Auto decision as a flat first-match table: which gate answers, with what, and what it leaves behind. */
module AutoTable {
  import opened Common
  import opened Policy
  import opened Samples
  import opened AutoState

  /** The gate that answered a decision. */
  datatype Exit =
    | NonAuto | Disabled | Cutover
    | NightHold | NightRunning | NightBlocked | NightStart
    | GridMissingIdle | GridMissingRunning | RecoveryWait | SocMissing
    | InputsMissingIdle | InputsMissingRunning | Hold
    | Running | StopPending(key: StopKey) | StopFired(key: StopKey)
    | AutostartOff | StartBlocked | StartArmed | StartPending | StartFired

  datatype Outcome = Outcome(exit: Exit, next: State, relay: bool)

  // ---- The delayed stop ----

  /** The timer restarts when it is off or was armed for another key, and fires once it is old enough. */
  function StopTimer(s: State, key: StopKey, now: real, delay: real): Outcome {
    var t := s.timers;
    if t.stopSince.None? || (t.stopKey.Some? && t.stopKey.value != key)
    then Outcome(StopPending(key), s.(timers := t.(stopSince := Some(now), stopKey := Some(key))), true)
    else
      var kept := s.(timers := t.(stopKey := Some(key)));
      if now - t.stopSince.value >= delay then Outcome(StopFired(key), kept, false)
      else Outcome(StopPending(key), kept, true)
  }

  function StopDelay(key: StopKey, i: Inputs): real {
    if key == AutoStopSurplus then i.policy.stopSurplusDelay else i.settings.stopDelay
  }

  /** The stop that incomplete inputs still justify. The night lock applies here in the daytime too. */
  function MissingInputsDemand(t: RelayTimes, i: Inputs, soc: real): Option<StopKey> {
    if !MinRuntimeElapsed(t, i) then None
    else if i.settings.nightLockStop || !i.daytime then Some(NightLock)
    else if soc < i.policy.minSoc || (i.grid.Some? && i.grid.value >= i.policy.stopImport) then Some(AutoStop)
    else None
  }

  function RunningDemand(o: Observation, i: Inputs, soc: real): Option<StopKey> {
    if !MinRuntimeElapsed(o.state.times, i) then None
    else if i.settings.nightLockStop && !i.daytime then Some(NightLock)
    else if soc < i.policy.minSoc then Some(AutoStopSoc)
    else if o.grid >= i.policy.stopImport then Some(AutoStopGrid)
    else if o.surplus <= o.thresholds.stop then Some(AutoStopSurplus)
    else None
  }

  /** Runs the stop timer when a stop is demanded; otherwise the relay stays on and the timer is cleared. */
  function StopOrRun(s: State, demand: Option<StopKey>, healthy: Exit, i: Inputs): Outcome {
    if demand.None? then Outcome(healthy, StopCleared(s), true)
    else StopTimer(s, demand.value, i.now, StopDelay(demand.value, i))
  }

  // ---- Starting ----

  predicate StartConditions(o: Observation, i: Inputs, soc: real) {
    && MinOfftimeElapsed(o.state, i) && i.daytime
    && o.surplus >= o.thresholds.start
    && o.grid <= i.policy.startMaxImport
    && soc >= i.policy.resumeSoc
  }

  function StartTimer(s: State, i: Inputs): Outcome {
    var since := s.timers.startSince;
    if since.None? then Outcome(StartArmed, s.(timers := s.timers.(startSince := Some(i.now))), false)
    else if i.now - since.value >= i.settings.startDelay
    then Outcome(StartFired, s.(mode := s.mode.(offtimeBypass := false)), true)
    else Outcome(StartPending, s, false)
  }

  // ---- State after the gates that let a decision continue ----

  function AfterCutover(s: State): State {
    if s.mode.cutoverPending then TimersReset(s).(mode := Mode(false, true)) else s
  }

  function RecoveryAdvanced(r: Recovery, i: Inputs): Recovery {
    if !r.required then r
    else if i.policy.gridRecovery <= 0.0 then Recovery(false, Some(i.now))
    else if r.since.None? then r.(since := Some(i.now))
    else if i.now - r.since.value < i.policy.gridRecovery then r
    else r.(required := false)
  }

  function AfterRecovery(s: State, i: Inputs): State {
    s.(recovery := RecoveryAdvanced(s.recovery, i))
  }

  // ---- Which gates a decision reaches ----

  /** Auto is in charge and no mode change is holding it back. */
  predicate InControl(s: State, i: Inputs) {
    i.autoMode && i.enabled && (s.mode.cutoverPending ==> i.cutoverOffConfirmed)
  }

  /** The decision looks at the grid reading (scheduled-night decisions do not). */
  predicate ChecksGrid(s: State, i: Inputs) {
    InControl(s, i) && !i.nightBoost
  }

  /** The state in which the averages would be taken. */
  function Entry(s: State, i: Inputs): State {
    AfterRecovery(AfterCutover(s), i)
  }

  /** The decision adds a sample and reads averages. */
  predicate TakesAverages(s: State, i: Inputs) {
    && ChecksGrid(s, i) && GridFresh(i)
    && !(RecoveryWaiting(s.recovery, i) && !i.relayOn)
    && ResolvedSoc(i).Some? && i.pv.Some? && i.grid.Some?
  }

  // ---- The table ----

  function NightDecision(e: State, i: Inputs): Outcome {
    if HeldOff(i) then Outcome(NightHold, TimersReset(e), i.relayOn)
    else if i.relayOn then Outcome(NightRunning, e.(timers := NO_TIMERS), true)
    else if !i.autostart || !MinOfftimeElapsed(e, i) then Outcome(NightBlocked, StartCleared(e), false)
    else Outcome(NightStart, e.(timers := NO_TIMERS), true)
  }

  function GridMissingDecision(e: State, i: Inputs): Outcome {
    var m := StartCleared(SamplesCleared(e)).(recovery := Recovery(true, None));
    if !i.relayOn then Outcome(GridMissingIdle, m, false)
    else StopOrRun(m, if MinRuntimeElapsed(m.times, i) then Some(GridMissing) else None, GridMissingRunning, i)
  }

  function InputsMissingDecision(r: State, i: Inputs, soc: real): Outcome {
    var m := StartCleared(SamplesCleared(r));
    if !i.relayOn then Outcome(InputsMissingIdle, m, false)
    else StopOrRun(m, MissingInputsDemand(m.times, i, soc), InputsMissingRunning, i)
  }

  function RunningDecision(o: Observation, i: Inputs, soc: real): Outcome {
    StopOrRun(StartCleared(o.state), RunningDemand(o, i, soc), Running, i)
  }

  function IdleDecision(o: Observation, i: Inputs, soc: real): Outcome {
    var m := o.state.(timers := o.state.timers.(stopSince := None));
    if !i.autostart then Outcome(AutostartOff, StartCleared(m), false)
    else if StartConditions(o, i, soc) then StartTimer(m, i)
    else Outcome(StartBlocked, StartCleared(m), false)
  }

  /** Decisions of an Auto in control that checks the grid. */
  function GridDecision(e: State, i: Inputs, o: Observation): Outcome {
    if !GridFresh(i) then GridMissingDecision(e, i)
    else
      var r := AfterRecovery(e, i);
      if RecoveryWaiting(e.recovery, i) && !i.relayOn then Outcome(RecoveryWait, StartCleared(r), false)
      else if ResolvedSoc(i).None? then Outcome(SocMissing, TimersReset(r), i.relayOn)
      else if i.pv.None? || i.grid.None? then InputsMissingDecision(r, i, ResolvedSoc(i).value)
      else if HeldOff(i) then Outcome(Hold, TimersReset(o.state), i.relayOn)
      else if i.relayOn then RunningDecision(o, i, ResolvedSoc(i).value)
      else IdleDecision(o, i, ResolvedSoc(i).value)
  }

  /** The whole decision, given what the metrics stage observes when the decision gets that far. */
  function Decide(s: State, i: Inputs, o: Observation): Outcome {
    if !i.autoMode then Outcome(NonAuto, TimersReset(s).(mode := Mode(false, false)), i.relayOn)
    else if !i.enabled then Outcome(Disabled, TimersReset(s).(mode := Mode(false, false)), false)
    else if s.mode.cutoverPending && !i.cutoverOffConfirmed then Outcome(Cutover, TimersReset(s), false)
    else if i.nightBoost then NightDecision(AfterCutover(s), i)
    else GridDecision(AfterCutover(s), i, o)
  }
}
