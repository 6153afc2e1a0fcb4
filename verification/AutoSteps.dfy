/** What single decisions guarantee, whatever the metrics stage measures: the facts the whole-run arguments use. */
module AutoSteps {
  import opened Common
  import opened Policy
  import opened AutoState
  import opened AutoTable

  predicate GridMissingAt(s: State, i: Inputs) { ChecksGrid(s, i) && !GridFresh(i) }

  predicate GridFreshAt(s: State, i: Inputs) { ChecksGrid(s, i) && GridFresh(i) }

  /** The metrics stage may only change samples, smoothed values and the two hysteresis bits. */
  predicate Framed(s: State, i: Inputs, o: Observation) {
    TakesAverages(s, i) ==>
      o.state == Entry(s, i).(trail := o.state.trail, bands := o.state.bands)
  }

  /** Every gate an ordinary Auto start has to pass. */
  predicate StartGatesHeld(s: State, i: Inputs, o: Observation) {
    && !i.relayOn
    && TakesAverages(s, i)
    && !HeldOff(i)
    && i.autostart
    && StartConditions(o, i, ResolvedSoc(i).value)
  }

  // ---- The relay value ----

  /** The relay is switched on only by an ordinary start or a scheduled-night start. */
  lemma OnlyTwoWaysOn(s: State, i: Inputs, o: Observation)
    ensures var d := Decide(s, i, o);
            !i.relayOn && d.relay <==> d.exit.StartFired? || d.exit.NightStart?
  {
  }

  /** The relay is switched off only by disabling, by a pending cutover, or by the stop timer. */
  lemma OnlyThreeWaysOff(s: State, i: Inputs, o: Observation)
    ensures var d := Decide(s, i, o);
            i.relayOn && !d.relay ==>
              (d.exit.Disabled? && !i.enabled) || (d.exit.Cutover? && s.mode.cutoverPending) || d.exit.StopFired?
    ensures Decide(s, i, o).exit.StopFired? ==> i.relayOn && !Decide(s, i, o).relay
  {
  }

  // ---- The start timer ----

  lemma StartTimerStep(s: State, i: Inputs, o: Observation)
    requires Framed(s, i, o)
    ensures var since := Decide(s, i, o).next.timers.startSince;
            since.Some? ==>
              StartGatesHeld(s, i, o) && (since == Some(i.now) || (since == s.timers.startSince && !s.mode.cutoverPending))
  {
  }

  lemma StartFires(s: State, i: Inputs, o: Observation)
    requires Framed(s, i, o) && Decide(s, i, o).exit.StartFired?
    ensures StartGatesHeld(s, i, o) && !s.mode.cutoverPending
    ensures s.timers.startSince.Some? && i.now - s.timers.startSince.value >= i.settings.startDelay
  {
  }

  /** Both kinds of start respect the minimum off time. */
  lemma StartsRespectOfftime(s: State, i: Inputs, o: Observation)
    requires Framed(s, i, o)
    requires Decide(s, i, o).exit.StartFired? || Decide(s, i, o).exit.NightStart?
    ensures i.autostart && MinOfftimeElapsed(AfterCutover(s), i)
  {
  }

  // ---- The stop timer ----

  /** The stop an exit stands for, if any. */
  function DemandOf(exit: Exit): Option<StopKey> {
    match exit
    case StopPending(key) => Some(key)
    case StopFired(key) => Some(key)
    case _ => None
  }

  /** The stop a decision with the relay on demands, if any. */
  function Demand(s: State, i: Inputs, o: Observation): Option<StopKey> {
    DemandOf(Decide(s, i, o).exit)
  }

  /** No stop is demanded but by a running relay past its minimum runtime, in a decision that checks the grid and either
      misses it or has a usable SOC and, with complete inputs, is not held off. */
  lemma DemandNeeds(s: State, i: Inputs, o: Observation)
    requires Framed(s, i, o) && Demand(s, i, o).Some?
    ensures i.relayOn && ChecksGrid(s, i) && MinRuntimeElapsed(s.times, i)
    ensures GridMissingAt(s, i) || (ResolvedSoc(i).Some? && (TakesAverages(s, i) ==> !HeldOff(i)))
    ensures Demand(s, i, o) == Some(AutoStop) ==> !TakesAverages(s, i) && GridFreshAt(s, i)
    ensures Demand(s, i, o) in {Some(AutoStopSoc), Some(AutoStopGrid), Some(AutoStopSurplus)} ==> TakesAverages(s, i)
  {
  }

  /** The stops that complete inputs demand. */
  lemma DemandWithInputs(s: State, i: Inputs, o: Observation)
    requires Framed(s, i, o) && i.relayOn && TakesAverages(s, i) && !HeldOff(i) && MinRuntimeElapsed(s.times, i)
    ensures var night := i.settings.nightLockStop && !i.daytime;
            var low := ResolvedSoc(i).value < i.policy.minSoc;
            var importing := o.grid >= i.policy.stopImport;
            && (Demand(s, i, o) == Some(NightLock) <==> night)
            && (Demand(s, i, o) == Some(AutoStopSoc) <==> !night && low)
            && (Demand(s, i, o) == Some(AutoStopGrid) <==> !night && !low && importing)
            && (Demand(s, i, o) == Some(AutoStopSurplus) <==>
                !night && !low && !importing && o.surplus <= o.thresholds.stop)
  {
  }

  /** The stops that incomplete inputs demand. */
  lemma DemandWithoutInputs(s: State, i: Inputs, o: Observation)
    requires Framed(s, i, o) && i.relayOn && GridFreshAt(s, i) && !TakesAverages(s, i) && ResolvedSoc(i).Some?
    requires MinRuntimeElapsed(s.times, i)
    ensures var night := i.settings.nightLockStop || !i.daytime;
            var low := ResolvedSoc(i).value < i.policy.minSoc;
            var importing := i.grid.Some? && i.grid.value >= i.policy.stopImport;
            && (Demand(s, i, o) == Some(NightLock) <==> night)
            && (Demand(s, i, o) == Some(AutoStop) <==> !night && (low || importing))
  {
  }

  /** What each demand means in terms of the inputs and measurements, in both directions: exactly these decisions demand a
      stop, and exactly this one. */
  lemma DemandMeaning(s: State, i: Inputs, o: Observation)
    requires Framed(s, i, o)
    ensures Demand(s, i, o).Some? ==>
              && i.relayOn && ChecksGrid(s, i) && MinRuntimeElapsed(s.times, i)
              && (GridMissingAt(s, i) || (ResolvedSoc(i).Some? && (TakesAverages(s, i) ==> !HeldOff(i))))
    ensures Demand(s, i, o) == Some(AutoStop) ==> !TakesAverages(s, i) && GridFreshAt(s, i)
    ensures Demand(s, i, o) in {Some(AutoStopSoc), Some(AutoStopGrid), Some(AutoStopSurplus)} ==> TakesAverages(s, i)
    ensures Demand(s, i, o) == Some(GridMissing) <==>
            i.relayOn && GridMissingAt(s, i) && MinRuntimeElapsed(s.times, i)
    ensures i.relayOn && TakesAverages(s, i) && !HeldOff(i) && MinRuntimeElapsed(s.times, i) ==>
              var night := i.settings.nightLockStop && !i.daytime;
              var low := ResolvedSoc(i).value < i.policy.minSoc;
              var importing := o.grid >= i.policy.stopImport;
              && (Demand(s, i, o) == Some(NightLock) <==> night)
              && (Demand(s, i, o) == Some(AutoStopSoc) <==> !night && low)
              && (Demand(s, i, o) == Some(AutoStopGrid) <==> !night && !low && importing)
              && (Demand(s, i, o) == Some(AutoStopSurplus) <==>
                  !night && !low && !importing && o.surplus <= o.thresholds.stop)
    ensures i.relayOn && GridFreshAt(s, i) && !TakesAverages(s, i) && ResolvedSoc(i).Some?
            && MinRuntimeElapsed(s.times, i) ==>
              var night := i.settings.nightLockStop || !i.daytime;
              var low := ResolvedSoc(i).value < i.policy.minSoc;
              var importing := i.grid.Some? && i.grid.value >= i.policy.stopImport;
              && (Demand(s, i, o) == Some(NightLock) <==> night)
              && (Demand(s, i, o) == Some(AutoStop) <==> !night && (low || importing))
  {
    if Demand(s, i, o).Some? {
      DemandNeeds(s, i, o);
    }
    if i.relayOn && MinRuntimeElapsed(s.times, i) {
      if TakesAverages(s, i) && !HeldOff(i) {
        DemandWithInputs(s, i, o);
      } else if GridFreshAt(s, i) && !TakesAverages(s, i) && ResolvedSoc(i).Some? {
        DemandWithoutInputs(s, i, o);
      }
    }
  }

  /** A running stop timer was either armed or confirmed by this very demand, or the relay was off. */
  lemma StopTimerStep(s: State, i: Inputs, o: Observation)
    requires Framed(s, i, o)
    requires s.timers.stopSince.Some? ==> s.timers.stopKey.Some?
    ensures var n := Decide(s, i, o).next;
            n.timers.stopSince.Some? ==>
              && n.timers.stopKey.Some?
              && (i.relayOn ==> Demand(s, i, o) == n.timers.stopKey)
              && ((n.timers.stopSince == Some(i.now) && i.relayOn) ||
                  (n.timers.stopSince == s.timers.stopSince && n.timers.stopKey == s.timers.stopKey))
  {
    if ChecksGrid(s, i) {
      GridStopStep(AfterCutover(s), i, o);
    }
  }

  lemma GridStopStep(e: State, i: Inputs, o: Observation)
    requires o.state.timers == e.timers || GridDecision(e, i, o).exit in {RecoveryWait, SocMissing} || !GridFresh(i)
             || i.pv.None? || i.grid.None?
    requires e.timers.stopSince.Some? ==> e.timers.stopKey.Some?
    ensures var d := GridDecision(e, i, o);
            d.next.timers.stopSince.Some? ==>
              && d.next.timers.stopKey.Some?
              && (i.relayOn ==> d.exit == StopPending(d.next.timers.stopKey.value) ||
                                d.exit == StopFired(d.next.timers.stopKey.value))
              && ((d.next.timers.stopSince == Some(i.now) && i.relayOn) ||
                  (d.next.timers.stopSince == e.timers.stopSince && d.next.timers.stopKey == e.timers.stopKey))
  {
  }

  lemma StopFires(s: State, i: Inputs, o: Observation)
    requires Framed(s, i, o) && Decide(s, i, o).exit.StopFired?
    requires s.timers.stopSince.Some? ==> s.timers.stopKey.Some?
    ensures i.relayOn && MinRuntimeElapsed(s.times, i)
    ensures s.timers.stopSince.Some? && s.timers.stopKey.Some? && s.timers.stopKey == Demand(s, i, o)
    ensures i.now - s.timers.stopSince.value >= StopDelay(s.timers.stopKey.value, i)
  {
  }

  /** One decision with the relay on that demands nothing clears the timer. */
  lemma HealthyDecisionClears(s: State, i: Inputs, o: Observation)
    requires Framed(s, i, o) && i.relayOn && Demand(s, i, o).None?
    ensures Decide(s, i, o).next.timers.stopSince.None?
  {
    if ChecksGrid(s, i) {
      GridHealthyClears(AfterCutover(s), i, o);
    }
  }

  lemma GridHealthyClears(e: State, i: Inputs, o: Observation)
    requires i.relayOn && DemandOf(GridDecision(e, i, o).exit).None?
    ensures GridDecision(e, i, o).next.timers.stopSince.None?
  {
  }

  /** A demand with another key than the armed one restarts the timer instead of stopping. */
  lemma OtherDemandRestarts(s: State, i: Inputs, o: Observation)
    requires Framed(s, i, o) && i.relayOn
    requires Demand(s, i, o).Some? && s.timers.stopKey.Some? && Demand(s, i, o) != s.timers.stopKey
    ensures Decide(s, i, o).next.timers.stopSince == Some(i.now) && Decide(s, i, o).relay
  {
  }

  // ---- Grid recovery ----

  /** Grid loss and fresh readings drive the recovery window; nothing else touches it. */
  lemma RecoveryStep(s: State, i: Inputs, o: Observation)
    requires Framed(s, i, o)
    ensures Decide(s, i, o).next.recovery ==
            if GridMissingAt(s, i) then Recovery(true, None)
            else if GridFreshAt(s, i) then RecoveryAdvanced(s.recovery, i)
            else s.recovery
  {
  }

  /** While recovery is required no start is armed, and none fires. */
  lemma RecoveryHoldsStart(s: State, i: Inputs, o: Observation)
    requires Framed(s, i, o)
    ensures GridMissingAt(s, i) ==> Decide(s, i, o).next.timers.startSince.None?
    ensures var n := Decide(s, i, o).next;
            n.recovery.required && s.timers.startSince.None? ==> n.timers.startSince.None?
    ensures s.timers.startSince.None? ==> !Decide(s, i, o).exit.StartFired?
    ensures s.timers.startSince.None? && Decide(s, i, o).next.timers.startSince.Some? ==>
              GridFreshAt(s, i) && Decide(s, i, o).next.timers.startSince == Some(i.now)
  {
  }

  // ---- Relay times and cutover ----

  lemma DecisionKeepsRelayTimes(s: State, i: Inputs, o: Observation)
    requires Framed(s, i, o)
    ensures var n := Decide(s, i, o).next;
            n.times == s.times &&
            (!s.mode.cutoverPending && !s.mode.offtimeBypass ==> !n.mode.cutoverPending && !n.mode.offtimeBypass)
  {
  }

  // ---- The one-time bypass of the minimum off time ----

  /** A pending bypass ends exactly when Auto mode is left, the charger is disabled or an ordinary start fires: a
      scheduled-night start leaves it in place. */
  lemma BypassEndsIff(s: State, i: Inputs, o: Observation)
    requires Framed(s, i, o) && s.mode.offtimeBypass && !s.mode.cutoverPending
    ensures !Decide(s, i, o).next.mode.offtimeBypass <==>
            !i.autoMode || !i.enabled || Decide(s, i, o).exit.StartFired?
  {
  }

  lemma StartSpendsBypass(s: State, i: Inputs, o: Observation)
    requires Framed(s, i, o) && Decide(s, i, o).exit.StartFired?
    ensures Decide(s, i, o).next.mode == Mode(false, false)
  {
  }

  /** An idle decision of an enabled Auto for which scheduled-night charging is active. */
  predicate NightDue(i: Inputs) {
    i.autoMode && i.enabled && i.nightBoost && i.autostart && !i.relayOn && !HeldOff(i)
  }

  /** So one bypass can serve two starts: after a scheduled-night start and a stop at the same moment, the same night
      decision starts the charger again, however long the minimum off time is. */
  lemma BypassServesTwice(s: State, i: Inputs, o: Observation, p: Observation)
    requires s.mode.offtimeBypass && !s.mode.cutoverPending && NightDue(i) && i.settings.minOfftime > 0.0
    ensures var started := Decide(s, i, o);
            var stopped := RelayMarked(RelayMarked(started.next, true, i.now), false, i.now);
            && started.exit.NightStart? && started.next.mode.offtimeBypass
            && stopped.times.offAt == Some(i.now) && i.now - stopped.times.offAt.value < i.settings.minOfftime
            && Decide(stopped, i, p).exit.NightStart?
  {
  }

  // ---- When starts and stops fire ----

  /** An ordinary start fires exactly when every start gate holds, no cutover is pending and the armed timer is old
      enough. */
  lemma StartFiresIff(s: State, i: Inputs, o: Observation)
    requires Framed(s, i, o)
    ensures Decide(s, i, o).exit.StartFired? <==>
            && StartGatesHeld(s, i, o) && !s.mode.cutoverPending
            && s.timers.startSince.Some? && i.now - s.timers.startSince.value >= i.settings.startDelay
  {
  }

  /** As long as the gates hold, an armed start timer is neither cleared nor started anew. */
  lemma HeldGatesKeepStart(s: State, i: Inputs, o: Observation)
    requires Framed(s, i, o) && StartGatesHeld(s, i, o) && !s.mode.cutoverPending && s.timers.startSince.Some?
    ensures Decide(s, i, o).next.timers.startSince == s.timers.startSince
  {
  }

  /** A decision with the relay off that leaves the stop timer alone. */
  predicate IdleKeepsStop(exit: Exit) {
    exit.GridMissingIdle? || exit.RecoveryWait? || exit.InputsMissingIdle? || exit.NightBlocked?
  }

  /** With the relay off a stop timer only survives a decision that leaves it alone. */
  lemma StopTimerIdle(s: State, i: Inputs, o: Observation)
    requires Framed(s, i, o) && Decide(s, i, o).next.timers.stopSince.Some?
    ensures !i.relayOn ==> IdleKeepsStop(Decide(s, i, o).exit) && !s.mode.cutoverPending
    ensures s.mode.cutoverPending ==> Decide(s, i, o).next.timers.stopSince == Some(i.now)
  {
  }

  lemma IdleStopStep(s: State, i: Inputs, o: Observation)
    requires Framed(s, i, o) && !s.mode.cutoverPending && !i.relayOn && IdleKeepsStop(Decide(s, i, o).exit)
    ensures var t := Decide(s, i, o).next.timers; t.stopSince == s.timers.stopSince && t.stopKey == s.timers.stopKey
  {
  }

  /** A demand with the key of a running stop timer keeps it, and fires exactly when it is old enough. */
  lemma StopFiresIff(s: State, i: Inputs, o: Observation, key: StopKey)
    requires Framed(s, i, o) && !s.mode.cutoverPending && i.relayOn
    requires Demand(s, i, o) == Some(key) && s.timers.stopSince.Some? && s.timers.stopKey == Some(key)
    ensures var d := Decide(s, i, o);
            && d.next.timers.stopSince == s.timers.stopSince && d.next.timers.stopKey == s.timers.stopKey
            && (d.exit == StopFired(key) <==> i.now - s.timers.stopSince.value >= StopDelay(key, i))
  {
    GridStopFiresIff(s, i, o, key);
  }

  lemma GridStopFiresIff(e: State, i: Inputs, o: Observation, key: StopKey)
    requires i.relayOn && DemandOf(GridDecision(e, i, o).exit) == Some(key)
    requires GridFresh(i) && i.pv.Some? && i.grid.Some? && ResolvedSoc(i).Some? ==> o.state.timers == e.timers
    requires e.timers.stopSince.Some? && e.timers.stopKey == Some(key)
    ensures var d := GridDecision(e, i, o);
            && d.next.timers.stopSince == e.timers.stopSince && d.next.timers.stopKey == e.timers.stopKey
            && (d.exit == StopFired(key) <==> i.now - e.timers.stopSince.value >= StopDelay(key, i))
  {
  }

  /** A decision at which the start gates hold leaves a start timer running. */
  lemma HeldGatesArm(s: State, i: Inputs, o: Observation)
    requires Framed(s, i, o) && StartGatesHeld(s, i, o)
    ensures Decide(s, i, o).next.timers.startSince ==
            if s.mode.cutoverPending || s.timers.startSince.None? then Some(i.now) else s.timers.startSince
  {
  }

  /** A decision that demands a stop leaves the timer of that stop running. */
  lemma DemandArms(s: State, i: Inputs, o: Observation, key: StopKey)
    requires Framed(s, i, o) && i.relayOn && Demand(s, i, o) == Some(key)
    requires s.timers.stopSince.Some? ==> s.timers.stopKey.Some?
    ensures var t := Decide(s, i, o).next.timers; t.stopSince.Some? && t.stopKey == Some(key)
  {
    GridDemandArms(AfterCutover(s), i, o, key);
  }

  lemma GridDemandArms(e: State, i: Inputs, o: Observation, key: StopKey)
    requires i.relayOn && DemandOf(GridDecision(e, i, o).exit) == Some(key)
    ensures var t := GridDecision(e, i, o).next.timers; t.stopSince.Some? && t.stopKey == Some(key)
  {
  }
}
