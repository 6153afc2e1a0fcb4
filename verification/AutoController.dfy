/** The Auto controller as it runs: fields updated in place, gate by gate, with the assertions of the workflow. */
module AutoController {
  import opened Common
  import opened Policy
  import opened TimedWindow
  import opened Samples
  import opened Battery
  import opened AutoState
  import opened Metrics
  import opened AutoTable
  import Learning

  /** An intermediate decision: None means that later gates keep evaluating. */
  type RelayDecision = Option<bool>

  class AutoService {
    var autoStartConditionSince: Option<real>
    var autoStopConditionSince: Option<real>
    var autoStopConditionReason: Option<StopKey>
    var gridRecoveryRequired: bool
    var gridRecoverySince: Option<real>
    var relayLastChangedAt: Option<real>
    var relayLastOffAt: Option<real>
    var autoSamples: seq<Sample>
    var stopSmoothedSurplusPower: Option<real>
    var stopSmoothedGridPower: Option<real>
    var highSocProfileActive: Option<bool>
    var evPriorityActive: bool
    var autoModeCutoverPending: bool
    var ignoreMinOfftimeOnce: bool

    ghost function Snapshot(): State
      reads this
    {
      State(Timers(autoStartConditionSince, autoStopConditionSince, autoStopConditionReason),
            Recovery(gridRecoveryRequired, gridRecoverySince),
            RelayTimes(relayLastChangedAt, relayLastOffAt),
            Trail(autoSamples, stopSmoothedSurplusPower, stopSmoothedGridPower),
            Bands(highSocProfileActive, evPriorityActive),
            Mode(autoModeCutoverPending, ignoreMinOfftimeOnce))
    }

    constructor ()
      ensures Snapshot() == INITIAL
    {
      autoStartConditionSince, autoStopConditionSince, autoStopConditionReason := None, None, None;
      gridRecoveryRequired, gridRecoverySince := false, None;
      relayLastChangedAt, relayLastOffAt := None, None;
      autoSamples, stopSmoothedSurplusPower, stopSmoothedGridPower := [], None, None;
      highSocProfileActive, evPriorityActive := None, false;
      autoModeCutoverPending, ignoreMinOfftimeOnce := false, false;
    }

    // ---- Samples and tracking ----

    method AddAutoSample(now: real, surplus: real, grid: real, window: real)
      modifies this`autoSamples
      ensures autoSamples == Pruned(old(autoSamples) + [Timed(now, Reading(surplus, grid))], now - window)
    {
      autoSamples := autoSamples + [Timed(now, Reading(surplus, grid))];
      var cutoff := now - window;
      while autoSamples != [] && autoSamples[0].at < cutoff
        invariant Pruned(autoSamples, cutoff) == Pruned(old(autoSamples) + [Timed(now, Reading(surplus, grid))], cutoff)
        decreases |autoSamples|
      {
        autoSamples := autoSamples[1..];
      }
    }

    method ClearAutoSamples()
      modifies this
      ensures Snapshot() == SamplesCleared(old(Snapshot()))
    {
      autoSamples := [];
      stopSmoothedSurplusPower := None;
      stopSmoothedGridPower := None;
    }

    /** Records a relay change for the minimum on and off times. */
    method MarkRelayChanged(relayOn: bool, now: real)
      modifies this
      ensures Snapshot() == RelayMarked(old(Snapshot()), relayOn, now)
    {
      relayLastChangedAt := Some(now);
      if !relayOn {
        relayLastOffAt := Some(now);
      }
    }

    method ResetAutoState()
      modifies this
      ensures Snapshot() == TimersReset(old(Snapshot()))
    {
      autoStartConditionSince := None;
      autoStopConditionSince := None;
      autoStopConditionReason := None;
      ClearAutoSamples();
    }

    method ClearAutoStartTracking(clearSamples: bool)
      modifies this
      ensures Snapshot() == StartCleared(if clearSamples then SamplesCleared(old(Snapshot())) else old(Snapshot()))
    {
      autoStartConditionSince := None;
      if clearSamples {
        ClearAutoSamples();
      }
    }

    method IdleResult() returns (relay: bool)
      modifies this
      ensures Snapshot() == StartCleared(old(Snapshot())) && !relay
    {
      ClearAutoStartTracking(false);
      relay := false;
    }

    method RunningResult() returns (relay: bool)
      modifies this
      ensures Snapshot() == StopCleared(old(Snapshot())) && relay
    {
      autoStopConditionSince := None;
      autoStopConditionReason := None;
      relay := true;
    }

    /** Clears both timers and reports whether anything was set. */
    method ClearAutoDecisionTracking() returns (changed: bool)
      modifies this
      ensures Snapshot() == Forgotten(old(Snapshot()), Tracking)
      ensures changed <==> Snapshot() != old(Snapshot())
    {
      changed := false;
      if autoStartConditionSince.Some? {
        autoStartConditionSince := None;
        changed := true;
      }
      if autoStopConditionSince.Some? {
        autoStopConditionSince := None;
        changed := true;
      }
      if autoStopConditionReason.Some? {
        autoStopConditionReason := None;
        changed := true;
      }
    }

    /** What writing the mode clears. */
    method ResetAutoDecisionState()
      modifies this
      ensures Snapshot() == Forgotten(old(Snapshot()), DecisionState)
    {
      autoStartConditionSince := None;
      autoStopConditionSince := None;
      ClearAutoSamples();
    }

    // ---- Metrics ----

    /** Selects the threshold profile, remembers the selection and returns the scaled thresholds. */
    method SurplusThresholdsForSoc(i: Inputs, soc: real) returns (thresholds: ProfileValues)
      requires Usable(i)
      modifies this
      ensures Snapshot() == old(Snapshot()).(bands := Bands(Some(HighSocActive(i.policy, soc, old(highSocProfileActive))),
                                                            evPriorityActive))
      ensures evPriorityActive == old(evPriorityActive)
      ensures thresholds == ThresholdsInForce(old(Snapshot()), i, soc)
    {
      var active := HighSocActive(i.policy, soc, highSocProfileActive);
      highSocProfileActive := Some(active);
      thresholds := Learning.Thresholds(ActiveProfile(i.policy, active),
                                        Learning.Scale(i.policy.learn, i.learned, i.now));
    }

    method SmoothedDecisionMetrics(relayOn: bool, avgSurplus: real, avgGrid: real, alpha: real)
      returns (surplus: real, grid: real)
      modifies this
      ensures surplus == if relayOn then Smooth(old(stopSmoothedSurplusPower), avgSurplus, alpha) else avgSurplus
      ensures grid == if relayOn then Smooth(old(stopSmoothedGridPower), avgGrid, alpha) else avgGrid
      ensures Snapshot() == old(Snapshot()).(trail := Trail(old(autoSamples),
                                                            if relayOn then Some(surplus) else None,
                                                            if relayOn then Some(grid) else None))
    {
      if !relayOn {
        stopSmoothedSurplusPower := None;
        stopSmoothedGridPower := None;
        return avgSurplus, avgGrid;
      }
      surplus := Smooth(stopSmoothedSurplusPower, avgSurplus, alpha);
      grid := Smooth(stopSmoothedGridPower, avgGrid, alpha);
      stopSmoothedSurplusPower := Some(surplus);
      stopSmoothedGridPower := Some(grid);
    }

    method UpdateEvPriorityState(policy: PolicyValues, soc: real) returns (active: bool)
      modifies this
      ensures active == EvPriorityActive(policy, soc, old(evPriorityActive))
      ensures Snapshot() == old(Snapshot()).(bands := Bands(old(highSocProfileActive), active))
    {
      if evPriorityActive {
        if soc < policy.evPriorityRelease {
          evPriorityActive := false;
        }
      } else if soc >= policy.evPrioritySoc {
        evPriorityActive := true;
      }
      active := evPriorityActive;
    }

    method BatteryAdjustedSurplus(i: Inputs, soc: real, raw: real, grid: real) returns (surplus: real)
      requires i.pv.Some?
      modifies this
      ensures var ev := EvPriorityActive(i.policy, soc, old(evPriorityActive));
              Snapshot() == old(Snapshot()).(bands := Bands(old(highSocProfileActive), ev)) &&
              surplus == DecisionSurplus(ev, raw, i.pv.value, grid, if i.relayOn then i.chargingPower else 0.0,
                                         CombinedActivity(i.battery))
    {
      var activity := CombinedBatteryActivity(i.battery);
      var active := UpdateEvPriorityState(i.policy, soc);
      surplus := DecisionSurplus(active, raw, i.pv.value, grid, if i.relayOn then i.chargingPower else 0.0, activity);
    }

    /** Updates the rolling metrics; no averages exist only when the deque is empty. */
    method UpdateAverageMetrics(i: Inputs, soc: real) returns (averages: Option<(real, real)>)
      requires Usable(i) && i.pv.Some? && i.grid.Some?
      modifies this
      ensures var o := Observe(old(Snapshot()), i, soc);
              Snapshot() == o.state && averages == Some((o.surplus, o.grid))
    {
      ghost var before := Snapshot();
      AddAutoSample(i.now, AvailableSurplus(i.pv.value, i.grid.value), i.grid.value, i.settings.averageWindow);
      SampleSurvives(before, i);
      if autoSamples == [] {
        assert false;
      }
      var avgSurplus, avgGrid := Mean(Surpluses(autoSamples)), Mean(Grids(autoSamples));
      var _ := SurplusThresholdsForSoc(i, soc);
      var alpha := AdaptiveAlpha(i.policy.ewma, autoSamples);
      var surplus, grid := SmoothedDecisionMetrics(i.relayOn, avgSurplus, avgGrid, alpha);
      var adjusted := BatteryAdjustedSurplus(i, soc, surplus, grid);
      averages := Some((adjusted, grid));
    }

    // ---- Runtime gates ----

    predicate MinimumRuntimeElapsed(i: Inputs)
      reads this
    {
      relayLastChangedAt.None? || i.now - relayLastChangedAt.value >= i.settings.minRuntime
    }

    predicate MinimumOfftimeElapsed(i: Inputs)
      reads this
    {
      if ignoreMinOfftimeOnce then true
      else if relayLastOffAt.None? then true
      else i.now - relayLastOffAt.value >= i.settings.minOfftime
    }

    method ResetStopTracking(now: real, key: StopKey) returns (restarted: bool)
      modifies this
      ensures restarted <==> old(autoStopConditionSince).None? ||
                             (old(autoStopConditionReason).Some? && old(autoStopConditionReason).value != key)
      ensures Snapshot() == if restarted then old(Snapshot()).(timers :=
                              Timers(old(autoStartConditionSince), Some(now), Some(key))) else old(Snapshot())
    {
      if !(autoStopConditionSince.None? || (autoStopConditionReason.Some? && autoStopConditionReason.value != key)) {
        return false;
      }
      autoStopConditionSince := Some(now);
      autoStopConditionReason := Some(key);
      restarted := true;
    }

    method ArmOrFireStop(now: real, key: StopKey, delay: real) returns (decision: RelayDecision)
      modifies this
      ensures var o := StopTimer(old(Snapshot()), key, now, delay);
              Snapshot() == o.next && decision == if o.relay then None else Some(false)
    {
      var restarted := ResetStopTracking(now, key);
      if restarted {
        return None;
      }
      if autoStopConditionReason.None? {
        autoStopConditionReason := Some(key);
      }
      assert autoStopConditionSince.Some?;
      if !(now - autoStopConditionSince.value >= delay) {
        return None;
      }
      decision := Some(false);
    }

    method PendingStopOrRunning(now: real, key: StopKey, delay: real) returns (relay: bool)
      modifies this
      ensures var o := StopTimer(old(Snapshot()), key, now, delay);
              Snapshot() == o.next && relay == o.relay
    {
      var decision := ArmOrFireStop(now, key, delay);
      relay := decision.None?;
    }

    method HandleNonAutoMode(relayOn: bool) returns (relay: bool)
      modifies this
      ensures Snapshot() == TimersReset(old(Snapshot())).(mode := Mode(false, false))
      ensures relay == relayOn
    {
      ResetAutoState();
      autoModeCutoverPending, ignoreMinOfftimeOnce := false, false;
      relay := relayOn;
    }

    method HandleDisabledMode() returns (relay: bool)
      modifies this
      ensures Snapshot() == TimersReset(old(Snapshot())).(mode := Mode(false, false))
      ensures !relay
    {
      ResetAutoState();
      autoModeCutoverPending, ignoreMinOfftimeOnce := false, false;
      relay := false;
    }

    method HandleCutoverPending(i: Inputs) returns (decision: RelayDecision)
      modifies this
      ensures old(autoModeCutoverPending) && !i.cutoverOffConfirmed ==>
                decision == Some(false) && Snapshot() == TimersReset(old(Snapshot()))
      ensures !(old(autoModeCutoverPending) && !i.cutoverOffConfirmed) ==>
                decision == None && Snapshot() == AfterCutover(old(Snapshot()))
    {
      if !autoModeCutoverPending {
        return None;
      }
      ResetAutoState();
      if !i.cutoverOffConfirmed {
        return Some(false);
      }
      autoModeCutoverPending, ignoreMinOfftimeOnce := false, true;
      decision := None;
    }

    method HandleGridMissing(i: Inputs) returns (relay: bool)
      modifies this
      ensures var o := GridMissingDecision(old(Snapshot()), i); Snapshot() == o.next && relay == o.relay
    {
      ClearAutoStartTracking(true);
      gridRecoveryRequired := true;
      gridRecoverySince := None;
      if !i.relayOn {
        relay := IdleResult();
        return;
      }
      if !MinimumRuntimeElapsed(i) {
        relay := RunningResult();
        return;
      }
      relay := PendingStopOrRunning(i.now, GridMissing, i.settings.stopDelay);
    }

    method GridRecoveryWaiting(now: real, seconds: real) returns (waiting: bool)
      modifies this
      ensures Snapshot() == if old(gridRecoverySince).None? then old(Snapshot()).(recovery :=
                              Recovery(gridRecoveryRequired, Some(now))) else old(Snapshot())
      ensures gridRecoveryRequired == old(gridRecoveryRequired)
      ensures waiting <==> old(gridRecoverySince).None? || now - old(gridRecoverySince).value < seconds
    {
      if gridRecoverySince.None? {
        gridRecoverySince := Some(now);
        return true;
      }
      waiting := now - gridRecoverySince.value < seconds;
    }

    method HandleGridRecoveryStartGate(i: Inputs) returns (decision: RelayDecision)
      modifies this
      ensures var r := AfterRecovery(old(Snapshot()), i);
              if RecoveryWaiting(old(Snapshot()).recovery, i) && !i.relayOn
              then decision == Some(false) && Snapshot() == StartCleared(r)
              else decision == None && Snapshot() == r
    {
      if !gridRecoveryRequired {
        return None;
      }
      var seconds := i.policy.gridRecovery;
      if seconds <= 0.0 {
        gridRecoverySince := Some(i.now);
        gridRecoveryRequired := false;
        return None;
      }
      var waiting := GridRecoveryWaiting(i.now, seconds);
      if waiting {
        if i.relayOn {
          return None;
        }
        ClearAutoStartTracking(false);
        return Some(false);
      }
      gridRecoveryRequired := false;
      decision := None;
    }

    method ResolveBatterySoc(i: Inputs) returns (soc: Option<real>, decision: RelayDecision)
      modifies this
      ensures soc == ResolvedSoc(i)
      ensures soc.Some? ==> decision == None && Snapshot() == old(Snapshot())
      ensures soc.None? ==> decision == Some(i.relayOn) && Snapshot() == TimersReset(old(Snapshot()))
    {
      if i.soc.Some? && 0.0 <= i.soc.value <= 100.0 {
        return i.soc, None;
      }
      if i.settings.allowWithoutSoc {
        return Some(i.policy.resumeSoc), None;
      }
      ResetAutoState();
      return None, Some(i.relayOn);
    }

    method HandleMissingInputs(i: Inputs, soc: real) returns (relay: bool)
      modifies this
      ensures var o := InputsMissingDecision(old(Snapshot()), i, soc); Snapshot() == o.next && relay == o.relay
    {
      ClearAutoStartTracking(true);
      if !i.relayOn {
        relay := IdleResult();
        return;
      }
      var reason: Option<StopKey> := None;
      if i.settings.nightLockStop || !i.daytime {
        reason := Some(NightLock);
      } else if soc < i.policy.minSoc {
        reason := Some(AutoStop);
      } else if i.grid.Some? && i.grid.value >= i.policy.stopImport {
        reason := Some(AutoStop);
      }
      if !MinimumRuntimeElapsed(i) || reason.None? {
        relay := RunningResult();
        return;
      }
      relay := PendingStopOrRunning(i.now, reason.value, i.settings.stopDelay);
    }

    method HandleCommonRuntimeGates(i: Inputs) returns (decision: RelayDecision)
      modifies this
      ensures HeldOff(i) ==> decision == Some(i.relayOn) && Snapshot() == TimersReset(old(Snapshot()))
      ensures !HeldOff(i) ==> decision == None && Snapshot() == old(Snapshot())
    {
      if i.now - i.settings.startedAt < i.settings.warmup {
        ResetAutoState();
        return Some(i.relayOn);
      }
      if i.now < i.settings.overrideUntil {
        ResetAutoState();
        return Some(i.relayOn);
      }
      decision := None;
    }

    // ---- Relay decisions ----

    /** The profile bit is already settled for this SOC, so a further lookup returns these thresholds again. */
    ghost predicate ThresholdsKnown(i: Inputs, soc: real, thresholds: ProfileValues)
      requires Usable(i)
      reads this
    {
      && highSocProfileActive == Some(HighSocActive(i.policy, soc, highSocProfileActive))
      && thresholds == ThresholdsInForce(Snapshot(), i, soc)
    }

    method RelayOnStopReason(i: Inputs, surplus: real, grid: real, soc: real, ghost thresholds: ProfileValues)
      returns (reason: Option<StopKey>)
      requires Usable(i)
      requires ThresholdsKnown(i, soc, thresholds)
      modifies this
      ensures reason == RunningDemand(Observation(old(Snapshot()), surplus, grid, thresholds), i, soc)
      ensures Snapshot() == old(Snapshot())
    {
      if !MinimumRuntimeElapsed(i) {
        return None;
      }
      if i.settings.nightLockStop && !i.daytime {
        return Some(NightLock);
      }
      var current := SurplusThresholdsForSoc(i, soc);
      if soc < i.policy.minSoc {
        return Some(AutoStopSoc);
      }
      if grid >= i.policy.stopImport {
        return Some(AutoStopGrid);
      }
      if surplus <= current.stop {
        return Some(AutoStopSurplus);
      }
      reason := None;
    }

    method HandleRelayOn(i: Inputs, surplus: real, grid: real, soc: real, ghost thresholds: ProfileValues)
      returns (relay: bool)
      requires Usable(i)
      requires ThresholdsKnown(i, soc, thresholds)
      modifies this
      ensures var d := RunningDecision(Observation(old(Snapshot()), surplus, grid, thresholds), i, soc);
              Snapshot() == d.next && relay == d.relay
    {
      autoStartConditionSince := None;
      var reason := RelayOnStopReason(i, surplus, grid, soc, thresholds);
      if reason.None? {
        relay := RunningResult();
        return;
      }
      var delay := if reason.value == AutoStopSurplus then i.policy.stopSurplusDelay else i.settings.stopDelay;
      relay := PendingStopOrRunning(i.now, reason.value, delay);
    }

    method ArmOrFireStart(i: Inputs) returns (relay: bool)
      modifies this
      ensures var d := StartTimer(old(Snapshot()), i); Snapshot() == d.next && relay == d.relay
    {
      if autoStartConditionSince.None? {
        autoStartConditionSince := Some(i.now);
        return false;
      }
      if i.now - autoStartConditionSince.value >= i.settings.startDelay {
        ignoreMinOfftimeOnce := false;
        return true;
      }
      relay := false;
    }

    method HandleRelayOff(i: Inputs, surplus: real, grid: real, soc: real, ghost thresholds: ProfileValues)
      returns (relay: bool)
      requires Usable(i)
      requires ThresholdsKnown(i, soc, thresholds)
      modifies this
      ensures var d := IdleDecision(Observation(old(Snapshot()), surplus, grid, thresholds), i, soc);
              Snapshot() == d.next && relay == d.relay
    {
      var current := SurplusThresholdsForSoc(i, soc);
      autoStopConditionSince := None;
      if !i.autostart {
        relay := IdleResult();
        return;
      }
      var offtimeElapsed := MinimumOfftimeElapsed(i);
      if offtimeElapsed && i.daytime && surplus >= current.start && grid <= i.policy.startMaxImport
         && soc >= i.policy.resumeSoc {
        relay := ArmOrFireStart(i);
        return;
      }
      ClearAutoStartTracking(false);
      relay := false;
    }

    method ScheduledNightDecision(i: Inputs) returns (relay: bool)
      modifies this
      ensures var d := NightDecision(old(Snapshot()), i); Snapshot() == d.next && relay == d.relay
    {
      var decision := HandleCommonRuntimeGates(i);
      if decision.Some? {
        return decision.value;
      }
      if i.relayOn {
        var _ := ClearAutoDecisionTracking();
        relay := RunningResult();
        return;
      }
      if !i.autostart || !MinimumOfftimeElapsed(i) {
        relay := IdleResult();
        return;
      }
      var _ := ClearAutoDecisionTracking();
      relay := RunningResult();
    }

    // ---- The workflow ----

    /** The gates before averaging: a resolved relay value, or the SOC to go on with. */
    method PreAverageDecision(i: Inputs) returns (decision: RelayDecision, soc: Option<real>)
      requires Usable(i)
      modifies this
      ensures decision.Some? ==>
                var d := Decide(old(Snapshot()), i, Measured(old(Snapshot()), i));
                Snapshot() == d.next && decision.value == d.relay
      ensures decision.None? ==>
                i.autoMode && i.enabled && !(old(autoModeCutoverPending) && !i.cutoverOffConfirmed)
      ensures decision.None? && i.nightBoost ==> Snapshot() == AfterCutover(old(Snapshot()))
      ensures decision.None? && !i.nightBoost ==>
                var e := AfterCutover(old(Snapshot()));
                GridFresh(i) && !(RecoveryWaiting(e.recovery, i) && !i.relayOn) && Snapshot() == AfterRecovery(e, i) &&
                i.pv.Some? && i.grid.Some? && soc.Some? && soc == ResolvedSoc(i)
    {
      if !i.autoMode {
        var relay := HandleNonAutoMode(i.relayOn);
        return Some(relay), None;
      }
      if !i.enabled {
        var relay := HandleDisabledMode();
        return Some(relay), None;
      }
      decision := HandleCutoverPending(i);
      if decision.Some? {
        return decision, None;
      }
      if i.nightBoost {
        return None, i.soc;
      }
      if !GridFresh(i) {
        var relay := HandleGridMissing(i);
        return Some(relay), None;
      }
      decision := HandleGridRecoveryStartGate(i);
      if decision.Some? {
        return decision, None;
      }
      soc, decision := ResolveBatterySoc(i);
      if decision.Some? {
        return decision, None;
      }
      if i.pv.Some? && i.grid.Some? {
        return None, soc;
      }
      assert soc.Some?;
      var relay := HandleMissingInputs(i, soc.value);
      return Some(relay), None;
    }

    method DecisionFromAverages(i: Inputs, surplus: real, grid: real, soc: real, ghost thresholds: ProfileValues)
      returns (relay: bool)
      requires Usable(i)
      requires ThresholdsKnown(i, soc, thresholds)
      modifies this
      ensures var o := Observation(old(Snapshot()), surplus, grid, thresholds);
              var d := if HeldOff(i) then Outcome(Hold, TimersReset(o.state), i.relayOn)
                       else if i.relayOn then RunningDecision(o, i, soc) else IdleDecision(o, i, soc);
              Snapshot() == d.next && relay == d.relay
    {
      var decision := HandleCommonRuntimeGates(i);
      if decision.Some? {
        return decision.value;
      }
      if i.relayOn {
        relay := HandleRelayOn(i, surplus, grid, soc, thresholds);
      } else {
        relay := HandleRelayOff(i, surplus, grid, soc, thresholds);
      }
    }

    /** One decision of the Auto workflow: it never hits an assertion, never leaves through the averaging exit, and
        answers and updates exactly as the flat table does. */
    method AutoDecideRelay(i: Inputs) returns (relay: bool)
      requires Usable(i)
      modifies this
      ensures var d := Decide(old(Snapshot()), i, Measured(old(Snapshot()), i));
              Snapshot() == d.next && relay == d.relay
    {
      var decision, soc := PreAverageDecision(i);
      if decision.Some? {
        return decision.value;
      }
      if i.nightBoost {
        relay := ScheduledNightDecision(i);
        return;
      }
      assert i.pv.Some? && i.grid.Some? && soc.Some?;
      ghost var thresholds := ThresholdsInForce(Snapshot(), i, soc.value);
      var averages := UpdateAverageMetrics(i, soc.value);
      if averages.None? {
        assert false;
      }
      HighSocIdempotent(i.policy, soc.value, old(highSocProfileActive));
      relay := DecisionFromAverages(i, averages.value.0, averages.value.1, soc.value, thresholds);
    }
  }

  /** Looking the profile up again within one decision changes nothing. */
  lemma HighSocIdempotent(p: PolicyValues, soc: real, was: Option<bool>)
    requires InRange(p)
    ensures var active := HighSocActive(p, soc, was); HighSocActive(p, soc, Some(active)) == active
  {
  }
}
