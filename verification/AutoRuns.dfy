/** Runs of the Auto controller: decisions, relay changes and outside interventions, one frame after the other. */
module AutoRuns {
  import opened Common
  import opened Policy
  import opened AutoState
  import opened AutoTable
  import opened AutoSteps
  import Metrics

  /** One thing that happens to the controller. A tick carries what its metrics stage measured, the gate that
      answered and the relay value returned. From outside the mode bits are set and tracking is cleared. */
  datatype Event =
    | Tick(i: Inputs, o: Observation, exit: Exit, relay: bool)
    | RelayChanged(on: bool, at: real)
    | Outside(mode: Mode, forgets: Forgetting)

  datatype Frame = Frame(before: State, event: Event, after: State)

  /** The frame is a step of the controller, whatever the tick measured. */
  predicate Genuine(f: Frame) {
    match f.event
    case Tick(i, o, exit, relay) => Framed(f.before, i, o) && Decide(f.before, i, o) == Outcome(exit, f.after, relay)
    case RelayChanged(on, at) => f.after == RelayMarked(f.before, on, at)
    case Outside(mode, forgets) => f.after == Forgotten(f.before, forgets).(mode := mode)
  }

  predicate GenuineAt(run: seq<Frame>, k: nat)
    requires k < |run|
  {
    Genuine(run[k]) && run[k].before == if k == 0 then INITIAL else run[k - 1].after
  }

  /** A run from the initial state. */
  ghost predicate Run(run: seq<Frame>) {
    forall k {:trigger GenuineAt(run, k)} :: 0 <= k < |run| ==> GenuineAt(run, k)
  }

  // ---- The runs of the implementation ----

  /** What the outside world decides; the rest of a frame follows. */
  datatype Stimulus = Decision(i: Inputs) | Switched(on: bool, at: real) | Intervention(mode: Mode, forgets: Forgetting)

  function Step(s: State, x: Stimulus): Frame
    requires x.Decision? ==> Usable(x.i)
  {
    match x
    case Decision(i) =>
      var o := Metrics.Measured(s, i);
      var d := Decide(s, i, o);
      Frame(s, Tick(i, o, d.exit, d.relay), d.next)
    case Switched(on, at) => Frame(s, RelayChanged(on, at), RelayMarked(s, on, at))
    case Intervention(mode, forgets) =>
      Frame(s, Outside(mode, forgets), Forgotten(s, forgets).(mode := mode))
  }

  /** The run that the controller produces for a sequence of stimuli, with its own measurements. */
  function Play(xs: seq<Stimulus>): (run: seq<Frame>)
    requires forall k :: 0 <= k < |xs| && xs[k].Decision? ==> Usable(xs[k].i)
    ensures |run| == |xs|
  {
    if xs == [] then []
    else
      var n := |xs| - 1;
      var run := Play(xs[..n]);
      run + [Step(if n == 0 then INITIAL else run[n - 1].after, xs[n])]
  }

  /** Every behaviour of the implementation is a run, so what holds of all runs holds of it. */
  lemma {:induction false} PlayIsRun(xs: seq<Stimulus>)
    requires forall k :: 0 <= k < |xs| && xs[k].Decision? ==> Usable(xs[k].i)
    ensures Run(Play(xs))
  {
    if xs != [] {
      var n := |xs| - 1;
      var run, all := Play(xs[..n]), Play(xs);
      PlayIsRun(xs[..n]);
      forall k | 0 <= k < |all|
        ensures GenuineAt(all, k)
      {
        if k < n {
          assert GenuineAt(run, k);
          assert all[k] == run[k] && (k > 0 ==> all[k - 1] == run[k - 1]);
        } else {
          StepIsGenuine(if n == 0 then INITIAL else run[n - 1].after, xs[n]);
        }
      }
    }
  }

  lemma StepIsGenuine(s: State, x: Stimulus)
    requires x.Decision? ==> Usable(x.i)
    ensures Genuine(Step(s, x)) && Step(s, x).before == s
  {
    if x.Decision? {
      Metrics.MeasuredFrame(s, x.i);
    }
  }

  // ---- Start safety ----

  predicate HeldGates(f: Frame) {
    f.event.Tick? ==> StartGatesHeld(f.before, f.event.i, f.event.o)
  }

  /** Nothing but a decision can touch the start timer here: no cutover is pending and nothing is cleared from outside. */
  predicate StartUndisturbed(f: Frame) {
    match f.event
    case Tick(_, _, _, _) => !f.before.mode.cutoverPending
    case RelayChanged(_, _) => true
    case Outside(_, forgets) => forgets == Nothing
  }

  /** This tick starts the start timer, or starts it anew after a cutover. */
  predicate ArmsStart(f: Frame) {
    && f.event.Tick? && f.after.timers.startSince == Some(f.event.i.now)
    && (f.before.timers.startSince != f.after.timers.startSince || f.before.mode.cutoverPending)
  }

  lemma StartFrame(f: Frame)
    requires Genuine(f) && f.after.timers.startSince.Some?
    ensures HeldGates(f)
    ensures ArmsStart(f) || (f.after.timers.startSince == f.before.timers.startSince && StartUndisturbed(f))
  {
    if f.event.Tick? {
      StartTimerStep(f.before, f.event.i, f.event.o);
    }
  }

  lemma UndisturbedStartFrame(f: Frame)
    requires Genuine(f) && f.before.timers.startSince.Some? && HeldGates(f) && StartUndisturbed(f)
    ensures f.after.timers.startSince == f.before.timers.startSince
    ensures f.event.Tick? ==>
              (f.event.exit.StartFired? <==>
               f.event.i.now - f.before.timers.startSince.value >= f.event.i.settings.startDelay)
  {
    if f.event.Tick? {
      HeldGatesKeepStart(f.before, f.event.i, f.event.o);
      StartFiresIff(f.before, f.event.i, f.event.o);
    }
  }

  lemma StartFiresFrame(f: Frame)
    requires Genuine(f) && f.event.Tick? && f.event.exit.StartFired?
    ensures HeldGates(f) && StartUndisturbed(f) && f.before.timers.startSince.Some?
    ensures f.event.i.now - f.before.timers.startSince.value >= f.event.i.settings.startDelay
  {
    StartFires(f.before, f.event.i, f.event.o);
  }

  /** Frame m armed the start timer, and through frame n every gate held at every decision and nothing disturbed it. */
  ghost predicate HeldSince(run: seq<Frame>, m: nat, n: nat)
    requires m <= n < |run|
  {
    && ArmsStart(run[m])
    && (forall k :: m <= k <= n ==> HeldGates(run[k]))
    && forall k :: m < k <= n ==> StartUndisturbed(run[k])
  }

  /** The tick that armed a running start timer, all gates having held since. */
  lemma {:induction false} StartTimerHistory(run: seq<Frame>, n: nat) returns (m: nat)
    requires Run(run) && n < |run| && run[n].after.timers.startSince.Some?
    ensures m <= n && HeldSince(run, m, n) && run[m].after.timers.startSince == run[n].after.timers.startSince
  {
    assert GenuineAt(run, n);
    StartFrame(run[n]);
    if ArmsStart(run[n]) {
      m := n;
    } else {
      m := StartTimerHistory(run, n - 1);
    }
  }

  /** An ordinary start happens only after all start gates held, at every decision, for at least the start delay:
      an earlier tick armed it, so a single decision never starts the charger. */
  lemma StartSafety(run: seq<Frame>, n: nat) returns (m: nat)
    requires Run(run) && n < |run| && run[n].event.Tick? && run[n].event.exit.StartFired?
    ensures m < n && run[m].event.Tick? && HeldSince(run, m, n)
    ensures run[n].event.i.now - run[m].event.i.now >= run[n].event.i.settings.startDelay
  {
    assert GenuineAt(run, n);
    StartFiresFrame(run[n]);
    m := StartTimerHistory(run, n - 1);
  }

  lemma {:induction false} HeldTimerSurvives(run: seq<Frame>, m: nat, n: nat)
    requires Run(run) && m <= n < |run| && HeldSince(run, m, n)
    ensures run[n].after.timers.startSince == Some(run[m].event.i.now)
  {
    if n > m {
      HeldTimerSurvives(run, m, n - 1);
      assert GenuineAt(run, n);
      UndisturbedStartFrame(run[n]);
    }
  }

  /** A decision starts the charger exactly when an earlier tick armed the start at least the delay before and every gate
      held from then on without disturbance: the start also never fails to come. */
  lemma StartIff(run: seq<Frame>, n: nat)
    requires Run(run) && n < |run| && run[n].event.Tick?
    ensures run[n].event.exit.StartFired? <==>
            exists m :: 0 <= m < n && HeldSince(run, m, n) &&
                        run[n].event.i.now - run[m].event.i.now >= run[n].event.i.settings.startDelay
  {
    if run[n].event.exit.StartFired? {
      var m := StartSafety(run, n);
    }
    if m :| 0 <= m < n && HeldSince(run, m, n) &&
            run[n].event.i.now - run[m].event.i.now >= run[n].event.i.settings.startDelay {
      assert HeldSince(run, m, n - 1);
      HeldTimerSurvives(run, m, n - 1);
      assert GenuineAt(run, n);
      UndisturbedStartFrame(run[n]);
    }
  }

  // ---- Delayed-stop safety ----

  predicate Demands(f: Frame, key: StopKey) {
    f.event.Tick? && f.event.i.relayOn ==> DemandOf(f.event.exit) == Some(key)
  }

  /** This tick demands a stop with the relay on and starts its timer, or starts it anew. */
  predicate ArmsStop(f: Frame, key: StopKey) {
    && f.event.Tick? && f.event.i.relayOn && Demands(f, key)
    && f.after.timers.stopSince == Some(f.event.i.now)
  }

  /** A stop timer with this key goes on: no cutover is pending, decisions with the relay on demand the same stop,
      decisions with the relay off leave it alone, and nothing is cleared from outside. */
  predicate StopUndisturbed(f: Frame, key: StopKey) {
    match f.event
    case Tick(i, _, exit, _) =>
      !f.before.mode.cutoverPending && (if i.relayOn then Demands(f, key) else IdleKeepsStop(exit))
    case RelayChanged(_, _) => true
    case Outside(_, forgets) => forgets == Nothing
  }

  /** A running stop timer has a key. */
  predicate StopKeyed(s: State) {
    s.timers.stopSince.Some? ==> s.timers.stopKey.Some?
  }

  lemma StopFrame(f: Frame)
    requires Genuine(f) && StopKeyed(f.before)
    ensures StopKeyed(f.after)
    ensures var t := f.after.timers;
            t.stopSince.Some? ==>
              || ArmsStop(f, t.stopKey.value)
              || (&& t.stopSince == f.before.timers.stopSince && t.stopKey == f.before.timers.stopKey
                  && StopUndisturbed(f, t.stopKey.value))
  {
    if f.event.Tick? {
      StopTimerStep(f.before, f.event.i, f.event.o);
      if f.after.timers.stopSince.Some? {
        StopTimerIdle(f.before, f.event.i, f.event.o);
      }
    }
  }

  lemma StopFiresFrame(f: Frame)
    requires Genuine(f) && f.event.Tick? && f.event.exit.StopFired? && StopKeyed(f.before)
    ensures var key := f.event.exit.key;
            && f.event.i.relayOn && MinRuntimeElapsed(f.before.times, f.event.i)
            && f.before.timers.stopSince.Some? && f.before.timers.stopKey == Some(key)
            && f.event.i.now - f.before.timers.stopSince.value >= StopDelay(key, f.event.i)
            && StopUndisturbed(f, key)
  {
    StopFires(f.before, f.event.i, f.event.o);
  }

  lemma UndisturbedStopFrame(f: Frame, key: StopKey)
    requires Genuine(f) && StopUndisturbed(f, key)
    requires f.before.timers.stopSince.Some? && f.before.timers.stopKey == Some(key)
    ensures f.after.timers.stopSince == f.before.timers.stopSince && f.after.timers.stopKey == Some(key)
    ensures f.event.Tick? && f.event.i.relayOn ==>
              (f.event.exit == StopFired(key) <==>
               f.event.i.now - f.before.timers.stopSince.value >= StopDelay(key, f.event.i))
  {
    if f.event.Tick? {
      if f.event.i.relayOn {
        StopFiresIff(f.before, f.event.i, f.event.o, key);
      } else {
        IdleStopStep(f.before, f.event.i, f.event.o);
      }
    }
  }

  /** Frame m armed the stop timer for a key, and through frame n nothing disturbed it. */
  ghost predicate StopHeldSince(run: seq<Frame>, m: nat, n: nat, key: StopKey)
    requires m <= n < |run|
  {
    ArmsStop(run[m], key) && forall k :: m < k <= n ==> StopUndisturbed(run[k], key)
  }

  /** The tick that armed a running stop timer; every relay-on tick since demanded its key. */
  lemma {:induction false} StopTimerHistory(run: seq<Frame>, n: nat) returns (m: nat)
    requires Run(run) && n < |run|
    ensures StopKeyed(run[n].after)
    ensures var t := run[n].after.timers;
            t.stopSince.Some? ==>
              && m <= n && StopHeldSince(run, m, n, t.stopKey.value)
              && run[m].after.timers.stopSince == t.stopSince
  {
    assert GenuineAt(run, n);
    m := n;
    if n == 0 {
      StopFrame(run[0]);
    } else {
      var before := StopTimerHistory(run, n - 1);
      StopFrame(run[n]);
      var t := run[n].after.timers;
      if t.stopSince.Some? && !ArmsStop(run[n], t.stopKey.value) {
        m := before;
      }
    }
  }

  /** A stop through the timer happens only with the minimum runtime over, and after every relay-on decision, for at
      least the delay of its key, demanded a stop with exactly that key. */
  lemma StopSafety(run: seq<Frame>, n: nat) returns (m: nat)
    requires Run(run) && n < |run| && run[n].event.Tick? && run[n].event.exit.StopFired?
    ensures var key := run[n].event.exit.key;
            && m < n && run[m].event.Tick? && run[m].event.i.relayOn && StopHeldSince(run, m, n, key)
            && run[n].event.i.relayOn && MinRuntimeElapsed(run[n].before.times, run[n].event.i)
            && run[n].event.i.now - run[m].event.i.now >= StopDelay(key, run[n].event.i)
            && forall k :: m <= k <= n ==> Demands(run[k], key)
  {
    assert GenuineAt(run, n);
    m := 0;
    if n > 0 {
      m := StopTimerHistory(run, n - 1);
    }
    StopFiresFrame(run[n]);
    assert forall k :: m < k <= n ==> StopUndisturbed(run[k], run[n].event.exit.key);
  }

  lemma {:induction false} HeldStopSurvives(run: seq<Frame>, m: nat, n: nat, key: StopKey)
    requires Run(run) && m <= n < |run| && StopHeldSince(run, m, n, key)
    ensures run[n].after.timers.stopSince == Some(run[m].event.i.now) && run[n].after.timers.stopKey == Some(key)
  {
    assert GenuineAt(run, n);
    if n > m {
      HeldStopSurvives(run, m, n - 1, key);
      UndisturbedStopFrame(run[n], key);
    } else {
      if n > 0 {
        var _ := StopTimerHistory(run, n - 1);
      }
      ArmedKey(run[n], key);
    }
  }

  lemma ArmedKey(f: Frame, key: StopKey)
    requires Genuine(f) && ArmsStop(f, key) && StopKeyed(f.before)
    ensures f.after.timers.stopKey == Some(key)
  {
    StopTimerStep(f.before, f.event.i, f.event.o);
  }

  /** A decision stops the charger through the timer of a key exactly when an earlier tick armed that timer at least its
      delay before, every relay-on decision from then on demanded that stop, and nothing disturbed it. */
  lemma StopIff(run: seq<Frame>, n: nat, key: StopKey)
    requires Run(run) && n < |run| && run[n].event.Tick? && run[n].event.i.relayOn
    ensures run[n].event.exit == StopFired(key) <==>
            exists m :: 0 <= m < n && StopHeldSince(run, m, n, key) &&
                        run[n].event.i.now - run[m].event.i.now >= StopDelay(key, run[n].event.i)
  {
    if run[n].event.exit == StopFired(key) {
      var m := StopSafety(run, n);
    }
    if m :| 0 <= m < n && StopHeldSince(run, m, n, key) &&
            run[n].event.i.now - run[m].event.i.now >= StopDelay(key, run[n].event.i) {
      assert StopHeldSince(run, m, n - 1, key);
      HeldStopSurvives(run, m, n - 1, key);
      assert GenuineAt(run, n);
      UndisturbedStopFrame(run[n], key);
    }
  }

  // ---- The one-time bypass over a run ----

  /** No cutover completes and nothing is set from outside. */
  predicate BypassUntouched(f: Frame) {
    match f.event
    case Tick(_, _, _, _) => !f.before.mode.cutoverPending
    case RelayChanged(_, _) => true
    case Outside(mode, _) => mode == Mode(false, false)
  }

  lemma {:induction false} BypassStaysSpent(run: seq<Frame>, m: nat, n: nat)
    requires Run(run) && m <= n < |run| && run[m].event.Tick? && run[m].event.exit.StartFired?
    requires forall k :: m < k <= n ==> BypassUntouched(run[k])
    ensures run[n].after.mode == Mode(false, false)
  {
    assert GenuineAt(run, n);
    if n > m {
      BypassStaysSpent(run, m, n - 1);
      if run[n].event.Tick? {
        DecisionKeepsRelayTimes(run[n].before, run[n].event.i, run[n].event.o);
      }
    } else {
      StartFiresFrame(run[n]);
      StartSpendsBypass(run[n].before, run[n].event.i, run[n].event.o);
    }
  }

  /** Once an ordinary start has spent the bypass, every later start has waited out the minimum off time, until another
      cutover completes or the bypass is set from outside. */
  lemma BypassServesOnceAfterOrdinaryStart(run: seq<Frame>, m: nat, n: nat)
    requires Run(run) && m < n < |run| && run[m].event.Tick? && run[m].event.exit.StartFired?
    requires forall k :: m < k <= n ==> BypassUntouched(run[k])
    requires run[n].event.Tick? && !run[n].event.i.relayOn && run[n].event.relay
    ensures var t := run[n].before.times;
            t.offAt.None? || run[n].event.i.now - t.offAt.value >= run[n].event.i.settings.minOfftime
  {
    assert GenuineAt(run, n);
    BypassStaysSpent(run, m, n - 1);
    OnlyTwoWaysOn(run[n].before, run[n].event.i, run[n].event.o);
    StartsRespectOfftime(run[n].before, run[n].event.i, run[n].event.o);
  }

  // ---- Grid-loss bound ----

  /** The time of a frame; an intervention takes place at the time of whatever came before it. */
  function TimeOf(f: Frame, before: real): real {
    match f.event
    case Tick(i, _, _, _) => i.now
    case RelayChanged(_, at) => at
    case Outside(_, _) => before
  }

  /** The clock after the first n frames of a run that begins at time 0 or later. */
  function Clock(run: seq<Frame>, n: nat): real
    requires n <= |run|
  {
    if n == 0 then 0.0 else TimeOf(run[n - 1], Clock(run, n - 1))
  }

  /** Time never goes back after frame m. */
  ghost predicate ClockFrom(run: seq<Frame>, m: nat) {
    forall k :: m < k < |run| ==> Clock(run, k) <= Clock(run, k + 1)
  }

  predicate MissingGrid(f: Frame) {
    f.event.Tick? && GridMissingAt(f.before, f.event.i)
  }

  predicate FreshGrid(f: Frame) {
    f.event.Tick? && GridFreshAt(f.before, f.event.i)
  }

  /** Frame l finds the grid fresh, for the first time after the grid was missing at frame m. */
  ghost predicate FreshAgain(run: seq<Frame>, m: nat, l: nat) {
    && m < l < |run| && MissingGrid(run[m]) && FreshGrid(run[l])
    && forall k :: m < k < l ==> !MissingGrid(run[k]) && !FreshGrid(run[k])
  }

  /** From frame l to frame n the recovery setting is at least this long. */
  ghost predicate RecoveryAtLeast(run: seq<Frame>, l: nat, n: nat, seconds: real)
    requires n < |run|
  {
    forall k :: l <= k <= n && run[k].event.Tick? ==> run[k].event.i.policy.gridRecovery >= seconds
  }

  /** What one frame does to the recovery window and an armed start. */
  lemma RecoveryFrame(f: Frame)
    requires Genuine(f)
    ensures f.after.recovery == if MissingGrid(f) then Recovery(true, None)
                                else if FreshGrid(f) then RecoveryAdvanced(f.before.recovery, f.event.i)
                                else f.before.recovery
    ensures MissingGrid(f) ==> f.after.timers.startSince.None?
    ensures f.before.timers.startSince.None? && f.after.recovery.required ==> f.after.timers.startSince.None?
    ensures f.after.timers.startSince.Some? ==>
              f.after.timers.startSince == f.before.timers.startSince ||
              (f.event.Tick? && f.after.timers.startSince == Some(f.event.i.now))
    ensures f.before.timers.startSince.None? && f.event.Tick? ==> !f.event.exit.StartFired?
  {
    if f.event.Tick? {
      RecoveryStep(f.before, f.event.i, f.event.o);
      RecoveryHoldsStart(f.before, f.event.i, f.event.o);
      StartTimerStep(f.before, f.event.i, f.event.o);
    }
  }

  lemma {:induction false} LostUntilFresh(run: seq<Frame>, m: nat, l: nat, n: nat)
    requires Run(run) && FreshAgain(run, m, l) && m <= n < l
    ensures run[n].after.recovery == Recovery(true, None) && run[n].after.timers.startSince.None?
  {
    assert GenuineAt(run, n);
    RecoveryFrame(run[n]);
    if n > m {
      LostUntilFresh(run, m, l, n - 1);
    }
  }

  /** Recovery still runs from the fresh reading or later with no start armed, or any armed start was armed no earlier
      than the end of the recovery window. */
  predicate RecoveringSince(s: State, seen: real, seconds: real) {
    if s.recovery.required
    then s.timers.startSince.None? && (s.recovery.since.Some? ==> s.recovery.since.value >= seen)
    else s.timers.startSince.Some? ==> s.timers.startSince.value >= seen + seconds
  }

  lemma RecoveringFrame(f: Frame, seen: real, seconds: real)
    requires Genuine(f) && RecoveringSince(f.before, seen, seconds)
    requires f.event.Tick? ==> f.event.i.now >= seen && f.event.i.policy.gridRecovery >= seconds
    requires f.event.Tick? && !f.before.recovery.required ==> f.event.i.now >= seen + seconds
    ensures RecoveringSince(f.after, seen, seconds)
    ensures f.before.recovery.required && !f.after.recovery.required ==>
              f.event.Tick? && f.event.i.now >= seen + seconds
  {
    RecoveryFrame(f);
  }

  lemma {:induction false} RecoveringAfterFresh(run: seq<Frame>, m: nat, l: nat, n: nat, seconds: real)
    requires Run(run) && FreshAgain(run, m, l) && l <= n < |run|
    requires ClockFrom(run, m) && RecoveryAtLeast(run, l, n, seconds)
    ensures RecoveringSince(run[n].after, run[l].event.i.now, seconds)
    ensures Clock(run, n + 1) >= run[l].event.i.now
    ensures !run[n].after.recovery.required ==> Clock(run, n + 1) >= run[l].event.i.now + seconds
  {
    assert GenuineAt(run, n);
    if n == l {
      LostUntilFresh(run, m, l, n - 1);
      RecoveryFrame(run[n]);
    } else {
      RecoveringAfterFresh(run, m, l, n - 1, seconds);
      assert Clock(run, n) <= Clock(run, n + 1);
      RecoveringFrame(run[n], run[l].event.i.now, seconds);
    }
  }

  /** After a grid loss no ordinary start happens before the recovery window and then the start delay have passed
      since the grid was first seen fresh again, whatever the relay does in between. */
  lemma GridLossBound(run: seq<Frame>, m: nat, l: nat, n: nat, seconds: real)
    requires Run(run) && FreshAgain(run, m, l) && m < n < |run|
    requires ClockFrom(run, m) && RecoveryAtLeast(run, l, n, seconds)
    requires run[n].event.Tick? && run[n].event.exit.StartFired?
    ensures l < n && run[n].event.i.now >= run[l].event.i.now + seconds + run[n].event.i.settings.startDelay
  {
    assert GenuineAt(run, n);
    StartFiresFrame(run[n]);
    if n <= l {
      LostUntilFresh(run, m, l, n - 1);
    } else {
      RecoveringAfterFresh(run, m, l, n - 1, seconds);
    }
  }

  /** Every ordinary start after a grid loss is covered: between the last loss and the start the grid was seen fresh. */
  lemma StartNeedsFreshGrid(run: seq<Frame>, m: nat, n: nat) returns (last: nat, l: nat)
    requires Run(run) && m < n < |run| && MissingGrid(run[m])
    requires run[n].event.Tick? && run[n].event.exit.StartFired?
    ensures m <= last && FreshAgain(run, last, l) && l < n
  {
    assert GenuineAt(run, n);
    StartFiresFrame(run[n]);
    last := LastMissing(run, m, n);
    l := FirstFresh(run, last, n);
    if l == n {
      LostUntilFresh(run, last, l, n - 1);
    }
  }

  lemma {:induction false} LastMissing(run: seq<Frame>, m: nat, n: nat) returns (last: nat)
    requires m < n <= |run| && MissingGrid(run[m])
    ensures m <= last < n && MissingGrid(run[last]) && forall k :: last < k < n ==> !MissingGrid(run[k])
  {
    if n - 1 == m || MissingGrid(run[n - 1]) {
      last := n - 1;
    } else {
      last := LastMissing(run, m, n - 1);
    }
  }

  lemma {:induction false} FirstFresh(run: seq<Frame>, m: nat, n: nat) returns (l: nat)
    requires m < n < |run| && FreshGrid(run[n])
    ensures m < l <= n && FreshGrid(run[l]) && forall k :: m < k < l ==> !FreshGrid(run[k])
    decreases n - m
  {
    if m + 1 == n || FreshGrid(run[m + 1]) {
      l := m + 1;
    } else {
      l := FirstFresh(run, m + 1, n);
    }
  }

  // ---- Starts and stops that are due do come ----

  lemma {:induction false} ClockGrows(run: seq<Frame>, a: nat, b: nat)
    requires ClockFrom(run, 0) && 1 <= a <= b <= |run|
    ensures Clock(run, a) <= Clock(run, b)
    decreases b
  {
    if a < b {
      ClockGrows(run, a, b - 1);
      assert Clock(run, b - 1) <= Clock(run, b);
    }
  }

  /** With a clock that never goes back, a decision at which all start gates have held at every decision for at least the
      start delay does start the charger. */
  lemma StartComes(run: seq<Frame>, m: nat, n: nat)
    requires Run(run) && ClockFrom(run, 0) && m < n < |run| && run[m].event.Tick? && run[n].event.Tick?
    requires forall k :: m <= k <= n ==> HeldGates(run[k])
    requires forall k :: m < k <= n ==> StartUndisturbed(run[k])
    requires run[n].event.i.now - run[m].event.i.now >= run[n].event.i.settings.startDelay
    ensures run[n].event.exit.StartFired?
  {
    assert GenuineAt(run, m);
    HeldGatesArm(run[m].before, run[m].event.i, run[m].event.o);
    var armed := StartTimerHistory(run, m);
    ClockGrows(run, armed + 1, m + 1);
    assert HeldSince(run, armed, n);
    StartIff(run, n);
  }

  /** With a clock that never goes back, a decision at which the same stop has been demanded by every relay-on decision
      for at least its delay does stop the charger. */
  lemma StopComes(run: seq<Frame>, m: nat, n: nat, key: StopKey)
    requires Run(run) && ClockFrom(run, 0) && m < n < |run| && run[m].event.Tick? && run[n].event.Tick?
    requires run[m].event.i.relayOn && run[n].event.i.relayOn && Demands(run[m], key)
    requires forall k :: m < k <= n ==> StopUndisturbed(run[k], key)
    requires run[n].event.i.now - run[m].event.i.now >= StopDelay(key, run[n].event.i)
    ensures run[n].event.exit == StopFired(key)
  {
    assert GenuineAt(run, m);
    if m > 0 {
      var _ := StopTimerHistory(run, m - 1);
    }
    DemandArms(run[m].before, run[m].event.i, run[m].event.o, key);
    var armed := StopTimerHistory(run, m);
    ClockGrows(run, armed + 1, m + 1);
    assert StopHeldSince(run, armed, n, key);
    StopIff(run, n, key);
  }
}
