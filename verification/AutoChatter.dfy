/** How often the relay can switch when it follows the decisions: the chatter bound. */
module AutoChatter {
  import opened Common
  import opened AutoState
  import opened AutoTable
  import opened AutoSteps
  import opened AutoRuns

  /** The relay position before frame n; it starts off. */
  function RelayAt(run: seq<Frame>, n: nat): bool
    requires n <= |run|
  {
    if n == 0 then false
    else if run[n - 1].event.RelayChanged? then run[n - 1].event.on
    else RelayAt(run, n - 1)
  }

  /** Decision j answered the position, and the relay has not changed between it and frame k. */
  predicate Answered(run: seq<Frame>, j: nat, k: nat, on: bool)
    requires j < k <= |run|
  {
    run[j].event.Tick? && run[j].event.relay == on && Unchanged(run, j, k)
  }

  predicate Unchanged(run: seq<Frame>, j: nat, k: nat)
    requires j <= k <= |run|
    decreases k - j
  {
    j == k || (!run[k - 1].event.RelayChanged? && Unchanged(run, j, k - 1))
  }

  /** Decisions see the true relay position, the controller stays enabled, nothing sets the mode from outside, and every
      relay change carries out, however late, a decision made since the change before it. */
  ghost predicate Follows(run: seq<Frame>, k: nat)
    requires k < |run|
  {
    match run[k].event
    case Tick(i, _, _, _) => i.relayOn == RelayAt(run, k) && i.enabled
    case RelayChanged(on, _) => on != RelayAt(run, k) && exists j :: 0 <= j < k && Answered(run, j, k, on)
    case Outside(mode, _) => mode == Mode(false, false)
  }

  ghost predicate ClosedLoop(run: seq<Frame>) {
    Run(run) && ClockFrom(run, 0) && forall k :: 0 <= k < |run| ==> Follows(run, k)
  }

  /** Between two frames the settings are at least these. */
  ghost predicate HoldTimesAtLeast(run: seq<Frame>, from: nat, to: nat, runtime: real, offtime: real)
    requires to <= |run|
  {
    forall k :: from < k < to && run[k].event.Tick? ==>
      run[k].event.i.settings.minRuntime >= runtime && run[k].event.i.settings.minOfftime >= offtime
  }

  predicate SwitchesOn(f: Frame) {
    f.event.RelayChanged? && f.event.on
  }

  /** A tick of an enabled controller without cutover or bypass. */
  lemma TickFrame(f: Frame)
    requires Genuine(f) && f.event.Tick? && f.event.i.enabled && f.before.mode == Mode(false, false)
    ensures f.after.times == f.before.times && f.after.mode == Mode(false, false)
    ensures f.event.i.relayOn && !f.event.relay ==> MinRuntimeElapsed(f.before.times, f.event.i)
    ensures !f.event.i.relayOn && f.event.relay ==> MinOfftimeElapsed(f.before, f.event.i)
  {
    var s, i, o := f.before, f.event.i, f.event.o;
    DecisionKeepsRelayTimes(s, i, o);
    if i.relayOn && !f.event.relay {
      OnlyThreeWaysOff(s, i, o);
      StopTimerRuntime(s, i, o);
    }
    if !i.relayOn && f.event.relay {
      OnlyTwoWaysOn(s, i, o);
      StartsRespectOfftime(s, i, o);
    }
  }

  lemma StopTimerRuntime(s: State, i: Inputs, o: Observation)
    requires Framed(s, i, o) && Decide(s, i, o).exit.StopFired?
    ensures MinRuntimeElapsed(s.times, i)
  {
    DemandMeaning(s, i, o);
  }

  lemma {:induction false} ModeStaysPlain(run: seq<Frame>, n: nat)
    requires ClosedLoop(run) && n < |run|
    ensures run[n].before.mode == Mode(false, false)
    ensures run[n].event.Tick? ==> run[n].after.times == run[n].before.times
    ensures run[n].after.mode == Mode(false, false)
  {
    assert GenuineAt(run, n) && Follows(run, n);
    if n > 0 {
      ModeStaysPlain(run, n - 1);
    }
    if run[n].event.Tick? {
      TickFrame(run[n]);
    }
  }

  /** While the relay does not change, its position and recorded times stay as they are, and time does not go back. */
  lemma {:induction false} NothingChanges(run: seq<Frame>, j: nat, k: nat)
    requires ClosedLoop(run) && j < k < |run| && Unchanged(run, j, k)
    ensures RelayAt(run, j) == RelayAt(run, k) && run[j].before.times == run[k].before.times
    ensures Clock(run, j + 1) <= Clock(run, k)
    decreases k
  {
    assert GenuineAt(run, k) && GenuineAt(run, k - 1);
    ModeStaysPlain(run, k - 1);
    if j < k - 1 {
      NothingChanges(run, j, k - 1);
      assert Clock(run, k - 1) <= Clock(run, k);
    }
  }

  /** The decision that a relay change carries out came after the change before, and had to respect the settings. */
  lemma ChangeRespectsHoldTimes(run: seq<Frame>, p: nat, n: nat, runtime: real, offtime: real)
    requires ClosedLoop(run) && p < n < |run| && HoldTimesAtLeast(run, p, n, runtime, offtime)
    requires run[p].event.RelayChanged? && run[n].event.RelayChanged?
    ensures var t := run[n].before.times;
            && (!run[n].event.on && t.changedAt.Some? ==> run[n].event.at >= t.changedAt.value + runtime)
            && (run[n].event.on && t.offAt.Some? ==> run[n].event.at >= t.offAt.value + offtime)
  {
    assert GenuineAt(run, n) && Follows(run, n);
    var j :| 0 <= j < n && Answered(run, j, n, run[n].event.on);
    UnchangedMeans(run, j, n);
    assert GenuineAt(run, j) && Follows(run, j);
    NothingChanges(run, j, n);
    ModeStaysPlain(run, j);
    TickFrame(run[j]);
    assert Clock(run, n) <= Clock(run, n + 1);
  }

  lemma {:induction false} UnchangedMeans(run: seq<Frame>, j: nat, k: nat)
    requires j <= k <= |run| && Unchanged(run, j, k)
    ensures forall l :: j <= l < k ==> !run[l].event.RelayChanged?
    decreases k - j
  {
    if j < k {
      UnchangedMeans(run, j, k - 1);
    }
  }

  /** Since a switch-on at time since: either the relay is still on from then, or it went off late enough. */
  predicate OnSince(run: seq<Frame>, n: nat, since: real, runtime: real)
    requires n < |run|
  {
    var t := run[n].after.times;
    if RelayAt(run, n + 1) && t.changedAt == Some(since) then true
    else t.offAt.Some? && t.offAt.value >= since + runtime && Clock(run, n + 1) >= since + runtime
  }

  lemma {:induction false} AfterSwitchOn(run: seq<Frame>, p: nat, n: nat, runtime: real, offtime: real)
    requires ClosedLoop(run) && p <= n < |run| && HoldTimesAtLeast(run, p, n, runtime, offtime) && SwitchesOn(run[p])
    ensures OnSince(run, n, run[p].event.at, runtime)
  {
    assert GenuineAt(run, n) && Follows(run, n);
    if n > p {
      AfterSwitchOn(run, p, n - 1, runtime, offtime);
      assert Clock(run, n) <= Clock(run, n + 1);
      ModeStaysPlain(run, n);
      if run[n].event.RelayChanged? {
        ChangeRespectsHoldTimes(run, p, n, runtime, offtime);
      }
    }
  }

  /** Two switch-ons are at least the minimum runtime plus the minimum off time apart, however they came about; only the
      settings between the two count. */
  lemma SwitchOnSpacing(run: seq<Frame>, p: nat, q: nat, runtime: real, offtime: real)
    requires ClosedLoop(run) && p < q < |run| && HoldTimesAtLeast(run, p, q, runtime, offtime)
    requires SwitchesOn(run[p]) && SwitchesOn(run[q])
    ensures run[q].event.at >= run[p].event.at + runtime + offtime
  {
    assert GenuineAt(run, q) && Follows(run, q);
    AfterSwitchOn(run, p, q - 1, runtime, offtime);
    ChangeRespectsHoldTimes(run, p, q, runtime, offtime);
  }

  /** Indices of switch-ons, in order. */
  ghost predicate AreSwitchOns(run: seq<Frame>, ons: seq<nat>) {
    && (forall k :: 0 <= k < |ons| ==> ons[k] < |run| && SwitchesOn(run[ons[k]]))
    && forall j, k :: 0 <= j < k < |ons| ==> ons[j] < ons[k]
  }

  lemma {:induction false} SwitchOnsSpread(run: seq<Frame>, ons: seq<nat>, runtime: real, offtime: real)
    requires ClosedLoop(run) && AreSwitchOns(run, ons) && |ons| > 0
    requires HoldTimesAtLeast(run, ons[0], ons[|ons| - 1], runtime, offtime)
    ensures run[ons[|ons| - 1]].event.at - run[ons[0]].event.at >= Times(|ons| - 1, runtime + offtime)
  {
    var n := |ons| - 1;
    if n > 0 {
      SwitchOnsSpread(run, ons[..n], runtime, offtime);
      SwitchOnSpacing(run, ons[n - 1], ons[n], runtime, offtime);
      TimesStep(n - 1, runtime + offtime);
    }
  }

  /** A window of the given length holds at most length / (minimum runtime + minimum off time) + 1 switch-ons. */
  lemma ChatterBound(run: seq<Frame>, ons: seq<nat>, runtime: real, offtime: real, length: real)
    requires ClosedLoop(run) && AreSwitchOns(run, ons)
    requires |ons| > 0 ==> HoldTimesAtLeast(run, ons[0], ons[|ons| - 1], runtime, offtime)
    requires runtime + offtime > 0.0 && length >= 0.0
    requires forall j, k :: 0 <= j < |ons| && 0 <= k < |ons| ==> run[ons[k]].event.at - run[ons[j]].event.at <= length
    ensures |ons| as real <= length / (runtime + offtime) + 1.0
  {
    var period := runtime + offtime;
    if |ons| > 0 {
      SwitchOnsSpread(run, ons, runtime, offtime);
      assert run[ons[|ons| - 1]].event.at - run[ons[0]].event.at <= length;
      QuotientOrder(Times(|ons| - 1, period), length, period);
      CountQuotient(|ons| - 1, period);
    } else {
      QuotientOrder(0.0, length, period);
    }
  }

  lemma CountQuotient(n: nat, period: real)
    requires period > 0.0
    ensures Times(n, period) / period == n as real
  {
  }
}
