/** What every answer of the controller means in terms of what it is given and what it remembers: each gate spelled out
    in readings, settings and times, and each remembered value after a decision. */
module AutoMeaning {
  import opened Common
  import opened AutoState
  import opened AutoTable
  import opened AutoSteps

  // ---- Readings ----

  lemma FreshReading(i: Inputs)
    ensures GridFresh(i) <==>
            (i.gridReadAt.None? && i.grid.Some?) ||
            (i.gridReadAt.Some? && i.now - i.gridReadAt.value <= i.settings.gridMissingStop)
  {
  }

  /** Start, running start timer or no start: an ordinary start is under way exactly when every reading allows it. */
  lemma StartMeaning(s: State, i: Inputs, o: Observation)
    requires Framed(s, i, o)
    ensures var d := Decide(s, i, o);
            var soc := if i.soc.Some? && 0.0 <= i.soc.value <= 100.0 then i.soc.value else i.policy.resumeSoc;
            d.exit in {StartArmed, StartPending, StartFired} <==>
            && i.autoMode && i.enabled && (s.mode.cutoverPending ==> i.cutoverOffConfirmed) && !i.nightBoost
            && (if i.gridReadAt.None? then i.grid.Some? else i.now - i.gridReadAt.value <= i.settings.gridMissingStop)
            && !(s.recovery.required && i.policy.gridRecovery > 0.0 &&
                 (s.recovery.since.None? || i.now - s.recovery.since.value < i.policy.gridRecovery))
            && ((i.soc.Some? && 0.0 <= i.soc.value <= 100.0) || i.settings.allowWithoutSoc)
            && i.pv.Some? && i.grid.Some?
            && i.now - i.settings.startedAt >= i.settings.warmup && i.now >= i.settings.overrideUntil
            && !i.relayOn && i.autostart
            && (s.mode.cutoverPending || s.mode.offtimeBypass || s.times.offAt.None? ||
                i.now - s.times.offAt.value >= i.settings.minOfftime)
            && i.daytime
            && o.surplus >= o.thresholds.start && o.grid <= i.policy.startMaxImport && soc >= i.policy.resumeSoc
  {
    if ChecksGrid(s, i) {
      GridStartMeaning(AfterCutover(s), i, o);
    }
  }

  lemma GridStartMeaning(e: State, i: Inputs, o: Observation)
    requires (!i.relayOn && GridFresh(i) && !RecoveryWaiting(e.recovery, i) && ResolvedSoc(i).Some? && i.pv.Some? &&
              i.grid.Some?) ==> o.state.times == e.times && o.state.mode == e.mode
    ensures var soc := if i.soc.Some? && 0.0 <= i.soc.value <= 100.0 then i.soc.value else i.policy.resumeSoc;
            GridDecision(e, i, o).exit in {StartArmed, StartPending, StartFired} <==>
            && (if i.gridReadAt.None? then i.grid.Some? else i.now - i.gridReadAt.value <= i.settings.gridMissingStop)
            && !(e.recovery.required && i.policy.gridRecovery > 0.0 &&
                 (e.recovery.since.None? || i.now - e.recovery.since.value < i.policy.gridRecovery))
            && ((i.soc.Some? && 0.0 <= i.soc.value <= 100.0) || i.settings.allowWithoutSoc)
            && i.pv.Some? && i.grid.Some?
            && i.now - i.settings.startedAt >= i.settings.warmup && i.now >= i.settings.overrideUntil
            && !i.relayOn && i.autostart
            && (e.mode.offtimeBypass || e.times.offAt.None? || i.now - e.times.offAt.value >= i.settings.minOfftime)
            && i.daytime
            && o.surplus >= o.thresholds.start && o.grid <= i.policy.startMaxImport && soc >= i.policy.resumeSoc
  {
  }

  /** Of a start under way: it is armed at first and after a cutover, waits, and fires once the delay is over. */
  lemma StartStages(s: State, i: Inputs, o: Observation)
    requires Framed(s, i, o) && Decide(s, i, o).exit in {StartArmed, StartPending, StartFired}
    ensures var d := Decide(s, i, o);
            && (d.exit == StartArmed <==> s.mode.cutoverPending || s.timers.startSince.None?)
            && (d.exit == StartFired <==>
                !s.mode.cutoverPending && s.timers.startSince.Some? &&
                i.now - s.timers.startSince.value >= i.settings.startDelay)
            && d.relay == (d.exit == StartFired)
  {
  }

  /** The averages are taken exactly when Auto is in charge by day, the grid is seen and has been back for long enough
      for an idle relay, and every reading is there. */
  lemma AveragesMeaning(s: State, i: Inputs)
    ensures TakesAverages(s, i) <==>
            && i.autoMode && i.enabled && (s.mode.cutoverPending ==> i.cutoverOffConfirmed) && !i.nightBoost
            && (if i.gridReadAt.None? then i.grid.Some? else i.now - i.gridReadAt.value <= i.settings.gridMissingStop)
            && (i.relayOn || !s.recovery.required || i.policy.gridRecovery <= 0.0 ||
                (s.recovery.since.Some? && i.now - s.recovery.since.value >= i.policy.gridRecovery))
            && ((i.soc.Some? && 0.0 <= i.soc.value <= 100.0) || i.settings.allowWithoutSoc)
            && i.pv.Some? && i.grid.Some?
  {
  }

  // ---- Stops ----

  /** A stop of the given key is under way exactly when the relay is on past its minimum runtime and the readings give
      this reason before any other; it fires exactly when the timer has run for this key and for the delay of the key. */
  lemma StopMeaning(s: State, i: Inputs, o: Observation, key: StopKey)
    requires Framed(s, i, o)
    ensures var d := Decide(s, i, o);
            var seen := if i.gridReadAt.None? then i.grid.Some?
                        else i.now - i.gridReadAt.value <= i.settings.gridMissingStop;
            var read := i.soc.Some? && 0.0 <= i.soc.value <= 100.0;
            var low := (if read then i.soc.value else i.policy.resumeSoc) < i.policy.minSoc;
            var complete := i.pv.Some? && i.grid.Some?;
            var held := i.now - i.settings.startedAt < i.settings.warmup || i.now < i.settings.overrideUntil;
            d.exit in {StopPending(key), StopFired(key)} <==>
            && i.relayOn && i.autoMode && i.enabled && !i.nightBoost
            && (s.mode.cutoverPending ==> i.cutoverOffConfirmed)
            && (s.times.changedAt.None? || i.now - s.times.changedAt.value >= i.settings.minRuntime)
            && if !seen then key == GridMissing
               else if !read && !i.settings.allowWithoutSoc then false
               else if !complete then
                 if i.settings.nightLockStop || !i.daytime then key == NightLock
                 else key == AutoStop && (low || (i.grid.Some? && i.grid.value >= i.policy.stopImport))
               else if held then false
               else if i.settings.nightLockStop && !i.daytime then key == NightLock
               else if low then key == AutoStopSoc
               else if o.grid >= i.policy.stopImport then key == AutoStopGrid
               else key == AutoStopSurplus && o.surplus <= o.thresholds.stop
  {
    if ChecksGrid(s, i) {
      GridStopMeaning(AfterCutover(s), i, o, key);
    }
  }

  lemma GridStopMeaning(e: State, i: Inputs, o: Observation, key: StopKey)
    requires GridFresh(i) && i.pv.Some? && i.grid.Some? && ResolvedSoc(i).Some? && i.relayOn
             ==> o.state.times == e.times
    ensures var d := GridDecision(e, i, o);
            var seen := if i.gridReadAt.None? then i.grid.Some?
                        else i.now - i.gridReadAt.value <= i.settings.gridMissingStop;
            var read := i.soc.Some? && 0.0 <= i.soc.value <= 100.0;
            var low := (if read then i.soc.value else i.policy.resumeSoc) < i.policy.minSoc;
            var complete := i.pv.Some? && i.grid.Some?;
            var held := i.now - i.settings.startedAt < i.settings.warmup || i.now < i.settings.overrideUntil;
            d.exit in {StopPending(key), StopFired(key)} <==>
            && i.relayOn
            && (e.times.changedAt.None? || i.now - e.times.changedAt.value >= i.settings.minRuntime)
            && if !seen then key == GridMissing
               else if !read && !i.settings.allowWithoutSoc then false
               else if !complete then
                 if i.settings.nightLockStop || !i.daytime then key == NightLock
                 else key == AutoStop && (low || (i.grid.Some? && i.grid.value >= i.policy.stopImport))
               else if held then false
               else if i.settings.nightLockStop && !i.daytime then key == NightLock
               else if low then key == AutoStopSoc
               else if o.grid >= i.policy.stopImport then key == AutoStopGrid
               else key == AutoStopSurplus && o.surplus <= o.thresholds.stop
  {
    var r := AfterRecovery(e, i);
    if !GridFresh(i) {
      StopOrRunMeaning(StartCleared(SamplesCleared(e)).(recovery := Recovery(true, None)),
                       if MinRuntimeElapsed(e.times, i) then Some(GridMissing) else None, GridMissingRunning, i, key);
    } else if i.relayOn && ResolvedSoc(i).Some? && (i.pv.None? || i.grid.None?) {
      StopOrRunMeaning(StartCleared(SamplesCleared(r)), MissingInputsDemand(e.times, i, ResolvedSoc(i).value),
                       InputsMissingRunning, i, key);
    } else if i.relayOn && ResolvedSoc(i).Some? && !HeldOff(i) {
      StopOrRunMeaning(StartCleared(o.state), RunningDemand(o, i, ResolvedSoc(i).value), Running, i, key);
    }
  }

  lemma StopOrRunMeaning(s: State, demand: Option<StopKey>, healthy: Exit, i: Inputs, key: StopKey)
    requires healthy in {GridMissingRunning, InputsMissingRunning, Running}
    ensures StopOrRun(s, demand, healthy, i).exit in {StopPending(key), StopFired(key)} <==> demand == Some(key)
  {
  }

  /** Of a stop under way: it fires exactly when no cutover has just completed and the timer was armed, for this key or
      before keys, at least the delay of this key ago. The surplus has its own delay; every other reason the common one. */
  lemma StopStages(s: State, i: Inputs, o: Observation, key: StopKey)
    requires Framed(s, i, o) && Decide(s, i, o).exit in {StopPending(key), StopFired(key)}
    ensures var d := Decide(s, i, o);
            var delay := if key.AutoStopSurplus? then i.policy.stopSurplusDelay else i.settings.stopDelay;
            var counting := !s.mode.cutoverPending && s.timers.stopSince.Some? &&
                            (s.timers.stopKey == None || s.timers.stopKey == Some(key));
            && (d.exit == StopFired(key) <==> counting && i.now - s.timers.stopSince.value >= delay)
            && d.relay == (d.exit == StopPending(key))
            && d.next.timers == Timers(None, if counting then s.timers.stopSince else Some(i.now), Some(key))
  {
    GridStopStages(AfterCutover(s), i, o, key);
  }

  lemma GridStopStages(e: State, i: Inputs, o: Observation, key: StopKey)
    requires GridDecision(e, i, o).exit in {StopPending(key), StopFired(key)}
    requires GridFresh(i) && i.pv.Some? && i.grid.Some? && ResolvedSoc(i).Some? && i.relayOn
             ==> o.state.timers == e.timers
    ensures var d := GridDecision(e, i, o);
            var delay := if key.AutoStopSurplus? then i.policy.stopSurplusDelay else i.settings.stopDelay;
            var counting := e.timers.stopSince.Some? && (e.timers.stopKey == None || e.timers.stopKey == Some(key));
            && (d.exit == StopFired(key) <==> counting && i.now - e.timers.stopSince.value >= delay)
            && d.relay == (d.exit == StopPending(key))
            && d.next.timers == Timers(None, if counting then e.timers.stopSince else Some(i.now), Some(key))
  {
  }

  // ---- Every other answer ----

  /** The answers given before any reading is looked at, and those of scheduled-night charging. */
  lemma ModeAnswers(s: State, i: Inputs, o: Observation)
    ensures var exit := Decide(s, i, o).exit;
            var inCharge := i.autoMode && i.enabled && (s.mode.cutoverPending ==> i.cutoverOffConfirmed);
            var held := i.now - i.settings.startedAt < i.settings.warmup || i.now < i.settings.overrideUntil;
            var free := s.mode.cutoverPending || s.mode.offtimeBypass || s.times.offAt.None? ||
                        i.now - s.times.offAt.value >= i.settings.minOfftime;
            && (exit == NonAuto <==> !i.autoMode)
            && (exit == Disabled <==> i.autoMode && !i.enabled)
            && (exit == Cutover <==> i.autoMode && i.enabled && s.mode.cutoverPending && !i.cutoverOffConfirmed)
            && (exit == NightHold <==> inCharge && i.nightBoost && held)
            && (exit == NightRunning <==> inCharge && i.nightBoost && !held && i.relayOn)
            && (exit == NightBlocked <==> inCharge && i.nightBoost && !held && !i.relayOn && !(i.autostart && free))
            && (exit == NightStart <==> inCharge && i.nightBoost && !held && !i.relayOn && i.autostart && free)
  {
  }

  /** The answers given for want of a reading, of a grid that has been back for long enough, or of permission. */
  lemma ReadingAnswers(s: State, i: Inputs, o: Observation)
    requires i.autoMode && i.enabled && (s.mode.cutoverPending ==> i.cutoverOffConfirmed) && !i.nightBoost
    ensures var exit := Decide(s, i, o).exit;
            var seen := if i.gridReadAt.None? then i.grid.Some?
                        else i.now - i.gridReadAt.value <= i.settings.gridMissingStop;
            var waits := !i.relayOn && s.recovery.required && i.policy.gridRecovery > 0.0 &&
                         (s.recovery.since.None? || i.now - s.recovery.since.value < i.policy.gridRecovery);
            var usable := (i.soc.Some? && 0.0 <= i.soc.value <= 100.0) || i.settings.allowWithoutSoc;
            var complete := i.pv.Some? && i.grid.Some?;
            var held := i.now - i.settings.startedAt < i.settings.warmup || i.now < i.settings.overrideUntil;
            && (exit == GridMissingIdle <==> !seen && !i.relayOn)
            && (exit == RecoveryWait <==> seen && waits)
            && (exit == SocMissing <==> seen && !waits && !usable)
            && (exit == InputsMissingIdle <==> seen && !waits && usable && !complete && !i.relayOn)
            && (exit == Hold <==> seen && !waits && usable && complete && held)
            && (exit == AutostartOff <==>
                seen && !waits && usable && complete && !held && !i.relayOn && !i.autostart)
  {
    GridReadingAnswers(AfterCutover(s), i, o);
  }

  lemma GridReadingAnswers(e: State, i: Inputs, o: Observation)
    ensures var exit := GridDecision(e, i, o).exit;
            var seen := if i.gridReadAt.None? then i.grid.Some?
                        else i.now - i.gridReadAt.value <= i.settings.gridMissingStop;
            var waits := !i.relayOn && e.recovery.required && i.policy.gridRecovery > 0.0 &&
                         (e.recovery.since.None? || i.now - e.recovery.since.value < i.policy.gridRecovery);
            var usable := (i.soc.Some? && 0.0 <= i.soc.value <= 100.0) || i.settings.allowWithoutSoc;
            var complete := i.pv.Some? && i.grid.Some?;
            var held := i.now - i.settings.startedAt < i.settings.warmup || i.now < i.settings.overrideUntil;
            && (exit == GridMissingIdle <==> !seen && !i.relayOn)
            && (exit == RecoveryWait <==> seen && waits)
            && (exit == SocMissing <==> seen && !waits && !usable)
            && (exit == InputsMissingIdle <==> seen && !waits && usable && !complete && !i.relayOn)
            && (exit == Hold <==> seen && !waits && usable && complete && held)
            && (exit == AutostartOff <==>
                seen && !waits && usable && complete && !held && !i.relayOn && !i.autostart)
  {
  }

  /** The relay each answer asks for. */
  lemma RelayAnswers(s: State, i: Inputs, o: Observation)
    ensures var d := Decide(s, i, o);
            d.relay == if d.exit in {NonAuto, NightHold, SocMissing, Hold} then i.relayOn
                       else d.exit in {NightRunning, NightStart, GridMissingRunning, InputsMissingRunning, Running,
                                       StartFired} || d.exit.StopPending?
  {
    if ChecksGrid(s, i) {
      GridRelayAnswers(AfterCutover(s), i, o);
    }
  }

  lemma GridRelayAnswers(e: State, i: Inputs, o: Observation)
    ensures var d := GridDecision(e, i, o);
            d.relay == if d.exit in {SocMissing, Hold} then i.relayOn
                       else d.exit in {GridMissingRunning, InputsMissingRunning, Running, StartFired} ||
                            d.exit.StopPending?
  {
  }

  // ---- What is remembered ----

  /** Relay times never change in a decision; the mode bits only do by leaving Auto, by completing a cutover, which
      grants the bypass, and by an ordinary start, which spends it. */
  lemma ModeMemory(s: State, i: Inputs, o: Observation)
    requires Framed(s, i, o)
    ensures var d := Decide(s, i, o);
            && d.next.times == s.times
            && d.next.mode ==
               if !i.autoMode || !i.enabled then Mode(false, false)
               else if s.mode.cutoverPending then
                 if i.cutoverOffConfirmed then Mode(false, true) else s.mode
               else if d.exit == StartFired then Mode(false, false) else s.mode
  {
  }

  /** A lost grid makes recovery required; the first fresh reading opens its window and the first one at its end or later
      closes it; without a recovery time the first fresh reading does. */
  lemma RecoveryMemory(s: State, i: Inputs, o: Observation)
    requires Framed(s, i, o)
    ensures var looks := i.autoMode && i.enabled && (s.mode.cutoverPending ==> i.cutoverOffConfirmed) && !i.nightBoost;
            var seen := if i.gridReadAt.None? then i.grid.Some?
                        else i.now - i.gridReadAt.value <= i.settings.gridMissingStop;
            var r, r' := s.recovery, Decide(s, i, o).next.recovery;
            && (!looks ==> r' == r)
            && (looks && !seen ==> r' == Recovery(true, None))
            && (looks && seen && !r.required ==> r' == r)
            && (looks && seen && r.required && i.policy.gridRecovery <= 0.0 ==> r' == Recovery(false, Some(i.now)))
            && (looks && seen && r.required && i.policy.gridRecovery > 0.0 ==>
                && (r'.required <==> r.since.None? || i.now - r.since.value < i.policy.gridRecovery)
                && r'.since == Some(if r.since.None? then i.now else r.since.value))
  {
    RecoveryStep(s, i, o);
  }

  /** Samples and smoothed values are those just observed when the averages decided, kept when the grid and the averages
      were not looked at, and otherwise cleared; the two bits change only with the averages. */
  lemma TrailMemory(s: State, i: Inputs, o: Observation)
    requires Framed(s, i, o)
    ensures var d := Decide(s, i, o);
            && d.next.bands == (if TakesAverages(s, i) then o.state.bands else s.bands)
            && d.next.trail ==
               if d.exit in {NightRunning, NightBlocked, NightStart, RecoveryWait} then
                 if s.mode.cutoverPending then Trail([], None, None) else s.trail
               else if TakesAverages(s, i) && d.exit != Hold then o.state.trail
               else Trail([], None, None)
  {
    if ChecksGrid(s, i) {
      GridTrailMemory(AfterCutover(s), i, o);
    }
  }

  lemma GridTrailMemory(e: State, i: Inputs, o: Observation)
    ensures var d := GridDecision(e, i, o);
            var averaged := GridFresh(i) && !(RecoveryWaiting(e.recovery, i) && !i.relayOn)
                            && ResolvedSoc(i).Some? && i.pv.Some? && i.grid.Some?;
            && d.next.bands == (if averaged then o.state.bands else e.bands)
            && d.exit !in {NightRunning, NightBlocked, NightStart}
            && d.next.trail == if d.exit == RecoveryWait then e.trail
                               else if averaged && d.exit != Hold then o.state.trail
                               else Trail([], None, None)
  {
  }

  /** The start timer runs on only while a start is under way; it is armed when it was off and when a cutover completes. */
  lemma StartMemory(s: State, i: Inputs, o: Observation)
    requires Framed(s, i, o)
    ensures var d := Decide(s, i, o);
            d.next.timers.startSince ==
            if d.exit !in {StartArmed, StartPending, StartFired} then None
            else if s.mode.cutoverPending || s.timers.startSince.None? then Some(i.now)
            else s.timers.startSince
  {
    if ChecksGrid(s, i) {
      GridStartMemory(AfterCutover(s), i, o);
    }
  }

  lemma GridStartMemory(e: State, i: Inputs, o: Observation)
    requires GridDecision(e, i, o).exit in {StartArmed, StartPending, StartFired} ==> o.state.timers == e.timers
    ensures var d := GridDecision(e, i, o);
            d.next.timers.startSince ==
            if d.exit !in {StartArmed, StartPending, StartFired} then None
            else if e.timers.startSince.None? then Some(i.now)
            else e.timers.startSince
  {
  }

  /** The stop timer outside a stop under way (StopStages): kept by the four idle answers that do not get to it, stopped
      with its key kept by the idle answers that do, and otherwise cleared. */
  lemma StopMemory(s: State, i: Inputs, o: Observation)
    requires Framed(s, i, o) && !Decide(s, i, o).exit.StopPending? && !Decide(s, i, o).exit.StopFired?
    ensures var d := Decide(s, i, o);
            var since, key := if s.mode.cutoverPending then None else s.timers.stopSince,
                              if s.mode.cutoverPending then None else s.timers.stopKey;
            && d.next.timers.stopSince ==
               (if d.exit in {NightBlocked, GridMissingIdle, RecoveryWait, InputsMissingIdle} then since else None)
            && d.next.timers.stopKey ==
               if d.exit in {NightBlocked, GridMissingIdle, RecoveryWait, InputsMissingIdle,
                             AutostartOff, StartBlocked, StartArmed, StartPending, StartFired} then key
               else None
  {
    if ChecksGrid(s, i) {
      GridStopMemory(AfterCutover(s), i, o);
    }
  }

  lemma GridStopMemory(e: State, i: Inputs, o: Observation)
    requires !GridDecision(e, i, o).exit.StopPending? && !GridDecision(e, i, o).exit.StopFired?
    requires (GridFresh(i) && ResolvedSoc(i).Some? && i.pv.Some? && i.grid.Some? &&
              !(RecoveryWaiting(e.recovery, i) && !i.relayOn)) ==> o.state.timers == e.timers
    ensures var d := GridDecision(e, i, o);
            && d.exit != NightBlocked
            && d.next.timers.stopSince ==
               (if d.exit in {GridMissingIdle, RecoveryWait, InputsMissingIdle} then e.timers.stopSince else None)
            && d.next.timers.stopKey ==
               if d.exit in {GridMissingIdle, RecoveryWait, InputsMissingIdle,
                             AutostartOff, StartBlocked, StartArmed, StartPending, StartFired} then e.timers.stopKey
               else None
  {
  }

  /** What happens between decisions: a relay change stamps the change and, when switching off, the off time; ending a
      charging session forgets the timers, writing the mode forgets when they were started and the samples. */
  lemma OutsideMemory(s: State, at: real)
    ensures RelayMarked(s, true, at) == s.(times := RelayTimes(Some(at), s.times.offAt))
    ensures RelayMarked(s, false, at) == s.(times := RelayTimes(Some(at), Some(at)))
    ensures Forgotten(s, Nothing) == s && Forgotten(s, Tracking) == s.(timers := Timers(None, None, None))
    ensures Forgotten(s, DecisionState) ==
            s.(timers := Timers(None, None, s.timers.stopKey), trail := Trail([], None, None))
  {
  }
}
