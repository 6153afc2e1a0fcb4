/** What the rolling samples, the smoothed values and the hysteresis bits remember of a whole run. */
module AutoSmoothing {
  import opened Common
  import opened Policy
  import opened TimedWindow
  import opened Samples
  import opened AutoState
  import opened AutoTable
  import opened AutoSteps
  import opened AutoRuns
  import opened Metrics

  /** The frame is one of the implementation: usable settings, and the metrics it really measures. */
  predicate MeasuredFrameAt(run: seq<Frame>, k: nat)
    requires k < |run|
  {
    && GenuineAt(run, k)
    && (run[k].event.Tick? ==>
          Usable(run[k].event.i) && run[k].event.o == Measured(run[k].before, run[k].event.i))
  }

  ghost predicate MeasuredRun(run: seq<Frame>) {
    forall k {:trigger MeasuredFrameAt(run, k)} :: 0 <= k < |run| ==> MeasuredFrameAt(run, k)
  }

  /** Every behaviour of the implementation is a measured run. */
  lemma {:induction false} PlayIsMeasured(xs: seq<Stimulus>)
    requires forall k :: 0 <= k < |xs| && xs[k].Decision? ==> Usable(xs[k].i)
    ensures MeasuredRun(Play(xs))
  {
    if xs != [] {
      var n := |xs| - 1;
      var run, all := Play(xs[..n]), Play(xs);
      PlayIsRun(xs);
      PlayIsMeasured(xs[..n]);
      forall k | 0 <= k < |all|
        ensures MeasuredFrameAt(all, k)
      {
        assert GenuineAt(all, k);
        if k < n {
          assert MeasuredFrameAt(run, k);
          assert all[k] == run[k];
        } else {
          StepIsMeasured(if n == 0 then INITIAL else run[n - 1].after, xs[n]);
        }
      }
    }
  }

  lemma StepIsMeasured(s: State, x: Stimulus)
    requires x.Decision? ==> Usable(x.i)
    ensures var f := Step(s, x);
            f.event.Tick? ==> Usable(f.event.i) && f.event.o == Measured(f.before, f.event.i)
  {
  }

  // ---- What a frame does to the trail ----

  function NewSample(i: Inputs): Sample
    requires i.pv.Some? && i.grid.Some?
  {
    Timed(i.now, Reading(AvailableSurplus(i.pv.value, i.grid.value), i.grid.value))
  }

  /** Samples and smoothed values from before this decision are gone when it averages or when it ends. */
  predicate ForgetsTrail(s: State, i: Inputs) {
    if !InControl(s, i) then true
    else if i.nightBoost then HeldOff(i) || s.mode.cutoverPending
    else if !GridFresh(i) then true
    else if RecoveryWaiting(s.recovery, i) && !i.relayOn then s.mode.cutoverPending
    else if !TakesAverages(s, i) then true
    else s.mode.cutoverPending || HeldOff(i)
  }

  predicate KeepsSample(s: State, i: Inputs) {
    TakesAverages(s, i) && !HeldOff(i)
  }

  function TrailBefore(s: State): Trail {
    if s.mode.cutoverPending then NO_TRAIL else s.trail
  }

  /** The trail after a decision: gone, extended by one sample, or untouched. */
  lemma TrailStep(s: State, i: Inputs)
    requires Usable(i)
    ensures Decide(s, i, Measured(s, i)).next.trail ==
            if KeepsSample(s, i) then Measured(s, i).state.trail
            else if ForgetsTrail(s, i) then NO_TRAIL
            else s.trail
  {
  }

  /** What a decision makes of the samples added so far. */
  function AddedAfter(added: seq<Sample>, s: State, i: Inputs): seq<Sample> {
    var kept := if ForgetsTrail(s, i) then [] else added;
    if KeepsSample(s, i) then kept + [NewSample(i)] else kept
  }

  /** The samples added since the samples were last cleared. */
  function Added(run: seq<Frame>, n: nat): seq<Sample>
    requires n <= |run|
  {
    if n == 0 then []
    else
      match run[n - 1].event
      case Tick(i, _, _, _) =>
        AddedAfter(Added(run, n - 1), run[n - 1].before, i)
      case RelayChanged(_, _) => Added(run, n - 1)
      case Outside(_, forgets) => if forgets.DecisionState? then [] else Added(run, n - 1)
  }

  // ---- Smoothing stays in the hull ----

  datatype Band = Band(low: real, high: real)

  predicate In(x: real, b: Band) { b.low <= x <= b.high }

  ghost predicate SamplesIn(samples: seq<Sample>, s: Band, g: Band) {
    forall k :: 0 <= k < |samples| ==> In(samples[k].item.surplus, s) && In(samples[k].item.grid, g)
  }

  ghost predicate TrailIn(t: Trail, s: Band, g: Band) {
    && SamplesIn(t.samples, s, g)
    && (t.surplus.Some? ==> In(t.surplus.value, s)) && (t.grid.Some? ==> In(t.grid.value, g))
  }

  lemma SmoothedMeanIn(previous: Option<real>, xs: seq<real>, alpha: real, b: Band)
    requires xs != [] && Within(xs, b.low, b.high) && IsFraction(alpha)
    requires previous.Some? ==> In(previous.value, b)
    ensures In(Smooth(previous, Mean(xs), alpha), b)
  {
    MeanBetween(xs, b.low, b.high);
    SmoothBetween(previous, Mean(xs), alpha, b.low, b.high);
  }

  lemma NextTrailIn(t: Trail, deque: seq<Sample>, e: EwmaValues, relayOn: bool, sb: Band, gb: Band)
    requires deque != [] && EwmaInRange(e) && TrailIn(t, sb, gb) && SamplesIn(deque, sb, gb)
    ensures TrailIn(NextTrail(t, deque, e, relayOn), sb, gb)
  {
    if relayOn {
      SmoothedMeanIn(t.surplus, Surpluses(deque), AdaptiveAlpha(e, deque), sb);
      SmoothedMeanIn(t.grid, Grids(deque), AdaptiveAlpha(e, deque), gb);
    }
  }

  /** One measurement keeps samples, smoothed surplus and smoothed grid inside the hull of what was sampled. */
  lemma MeasuredTrailIn(s: State, i: Inputs, sb: Band, gb: Band)
    requires Usable(i) && TakesAverages(s, i)
    requires TrailIn(TrailBefore(s), sb, gb) && SamplesIn([NewSample(i)], sb, gb)
    ensures TrailIn(Measured(s, i).state.trail, sb, gb)
  {
    var deque := SampledDeque(Entry(s, i), i);
    SampleSurvives(Entry(s, i), i);
    PrunedIn(TrailBefore(s).samples, NewSample(i), i.now - i.settings.averageWindow, sb, gb);
    NextTrailIn(TrailBefore(s), deque, i.policy.ewma, i.relayOn, sb, gb);
  }

  lemma PrunedIn(samples: seq<Sample>, x: Sample, cutoff: real, sb: Band, gb: Band)
    requires SamplesIn(samples, sb, gb) && SamplesIn([x], sb, gb)
    ensures SamplesIn(Pruned(samples + [x], cutoff), sb, gb)
  {
    assert [x][0] == x;
    PrunedStep(samples + [x], cutoff);
  }

  /** Over any run, the smoothed surplus and grid values lie between the extremes of the samples added since the last
      clear, for every smoothing factor a clamped policy can choose. */
  lemma {:induction false} SmoothingStaysInHull(run: seq<Frame>, n: nat, sb: Band, gb: Band)
    requires MeasuredRun(run) && n < |run| && SamplesIn(Added(run, n + 1), sb, gb)
    ensures TrailIn(run[n].after.trail, sb, gb)
    decreases n, 1
  {
    assert MeasuredFrameAt(run, n);
    var f := run[n];
    if f.event.Tick? {
      var s, i := f.before, f.event.i;
      TrailStep(s, i);
      if KeepsSample(s, i) {
        var kept := if ForgetsTrail(s, i) then [] else Added(run, n);
        KeptIn(kept, NewSample(i), sb, gb);
        if !s.mode.cutoverPending {
          TrailInBefore(run, n, sb, gb);
        }
        MeasuredTrailIn(s, i, sb, gb);
      } else if !ForgetsTrail(s, i) {
        TrailInBefore(run, n, sb, gb);
      }
    } else if Added(run, n + 1) == Added(run, n) {
      TrailInBefore(run, n, sb, gb);
    }
  }

  lemma KeptIn(kept: seq<Sample>, x: Sample, sb: Band, gb: Band)
    requires SamplesIn(kept + [x], sb, gb)
    ensures SamplesIn(kept, sb, gb) && SamplesIn([x], sb, gb)
  {
    assert (kept + [x])[|kept|] == x;
    assert forall k :: 0 <= k < |kept| ==> (kept + [x])[k] == kept[k];
  }

  lemma {:induction false} TrailInBefore(run: seq<Frame>, n: nat, sb: Band, gb: Band)
    requires MeasuredRun(run) && n < |run| && SamplesIn(Added(run, n), sb, gb)
    ensures TrailIn(run[n].before.trail, sb, gb)
    decreases n, 0
  {
    assert MeasuredFrameAt(run, n);
    if n > 0 {
      SmoothingStaysInHull(run, n - 1, sb, gb);
    }
  }

  /** The smoothed surplus never exceeds the greatest PV power seen, and is never negative. */
  lemma SmoothedSurplusBoundedByPv(run: seq<Frame>, n: nat, peak: real)
    requires MeasuredRun(run) && n < |run| && peak >= 0.0
    requires forall k :: 0 <= k <= n && run[k].event.Tick? && run[k].event.i.pv.Some? ==> run[k].event.i.pv.value <= peak
    ensures run[n].after.trail.surplus.Some? ==> 0.0 <= run[n].after.trail.surplus.value <= peak
  {
    var reach := GridReach(run, n + 1);
    AddedBounded(run, n + 1, peak, reach);
    SmoothingStaysInHull(run, n, Band(0.0, peak), Band(-reach, reach));
  }

  /** A bound on every grid reading of the first n frames. */
  function GridReach(run: seq<Frame>, n: nat): real
    requires n <= |run|
  {
    if n == 0 then 0.0
    else
      var rest := GridReach(run, n - 1);
      match run[n - 1].event
      case Tick(i, _, _, _) => if i.grid.Some? then Max(rest, Max(i.grid.value, -i.grid.value)) else rest
      case _ => rest
  }

  lemma {:induction false} AddedBounded(run: seq<Frame>, n: nat, peak: real, reach: real)
    requires n <= |run| && peak >= 0.0 && reach >= GridReach(run, n)
    requires forall k :: 0 <= k < n && run[k].event.Tick? && run[k].event.i.pv.Some? ==> run[k].event.i.pv.value <= peak
    ensures SamplesIn(Added(run, n), Band(0.0, peak), Band(-reach, reach))
  {
    if n > 0 {
      AddedBounded(run, n - 1, peak, reach);
    }
  }

  // ---- The deque is the averaging window ----

  ghost predicate FixedWindow(run: seq<Frame>, window: real) {
    forall k :: 0 <= k < |run| && run[k].event.Tick? ==> run[k].event.i.settings.averageWindow == window
  }

  lemma {:induction false} AddedIsOrdered(run: seq<Frame>, n: nat)
    requires n <= |run| && ClockFrom(run, 0)
    ensures Ordered(Added(run, n))
    ensures forall x :: x in Added(run, n) ==> x.at <= Clock(run, n)
  {
    if n > 0 {
      AddedIsOrdered(run, n - 1);
      if n > 1 {
        assert Clock(run, n - 1) <= Clock(run, n);
      }
    }
  }

  lemma DequeTick(s: State, i: Inputs, added: seq<Sample>, cutoff: real) returns (next: real)
    requires Usable(i) && s.trail.samples == Recent(added, cutoff)
    requires added != [] ==> cutoff <= i.now - i.settings.averageWindow
    requires Ordered(AddedAfter(added, s, i))
    ensures Decide(s, i, Measured(s, i)).next.trail.samples == Recent(AddedAfter(added, s, i), next)
    ensures AddedAfter(added, s, i) != [] ==> next <= i.now - i.settings.averageWindow
    ensures KeepsSample(s, i) ==> next == i.now - i.settings.averageWindow
  {
    TrailStep(s, i);
    next := cutoff;
    if KeepsSample(s, i) {
      var kept := if ForgetsTrail(s, i) then [] else added;
      next := i.now - i.settings.averageWindow;
      WindowStep(kept, TrailBefore(s).samples, [NewSample(i)], if kept == [] then next else cutoff, next);
    }
  }

  /** For a clock that never goes back, the deque is the part of the added samples from some cutoff on, and right
      after a decision that averaged exactly the samples inside the averaging window. */
  lemma {:induction false} DequeIsWindow(run: seq<Frame>, n: nat, window: real) returns (cutoff: real)
    requires MeasuredRun(run) && ClockFrom(run, 0) && FixedWindow(run, window) && n < |run|
    ensures run[n].after.trail.samples == Recent(Added(run, n + 1), cutoff)
    ensures Added(run, n + 1) != [] ==> cutoff <= Clock(run, n + 1) - window
    ensures run[n].event.Tick? && KeepsSample(run[n].before, run[n].event.i) ==> cutoff == run[n].event.i.now - window
  {
    assert MeasuredFrameAt(run, n);
    cutoff := 0.0;
    if n > 0 {
      cutoff := DequeIsWindow(run, n - 1, window);
      assert Clock(run, n) <= Clock(run, n + 1);
    }
    if run[n].event.Tick? {
      AddedIsOrdered(run, n + 1);
      cutoff := DequeTick(run[n].before, run[n].event.i, Added(run, n), cutoff);
    }
  }

  // ---- Hysteresis ----

  /** Every SOC that reached the metrics stage, in order. */
  function SocsSeen(run: seq<Frame>, n: nat): seq<real>
    requires n <= |run|
  {
    if n == 0 then []
    else
      match run[n - 1].event
      case Tick(i, _, _, _) =>
        SocsSeen(run, n - 1) + (if TakesAverages(run[n - 1].before, i) then [ResolvedSoc(i).value] else [])
      case _ => SocsSeen(run, n - 1)
  }

  predicate SwitchesBandOn(soc: real, on: real, strict: bool) {
    if strict then soc > on else soc >= on
  }

  /** The latest SOC outside the band was on the activating side. */
  ghost predicate LatestDecisiveIsOn(socs: seq<real>, on: real, off: real, strict: bool) {
    exists k :: 0 <= k < |socs| && SwitchesBandOn(socs[k], on, strict) && forall j :: k < j < |socs| ==> socs[j] >= off
  }

  lemma LatestDecisiveStep(socs: seq<real>, soc: real, on: real, off: real, strict: bool)
    requires off <= on
    ensures LatestDecisiveIsOn(socs + [soc], on, off, strict) <==>
            SwitchesBandOn(soc, on, strict) || (soc >= off && LatestDecisiveIsOn(socs, on, off, strict))
  {
    var all := socs + [soc];
    assert all[|socs|] == soc;
    if !SwitchesBandOn(soc, on, strict) && LatestDecisiveIsOn(all, on, off, strict) {
      var k :| 0 <= k < |all| && SwitchesBandOn(all[k], on, strict) && forall j :: k < j < |all| ==> all[j] >= off;
      assert k < |socs| && socs[k] == all[k];
      assert forall j :: k < j < |socs| ==> socs[j] == all[j];
    }
    if soc >= off && LatestDecisiveIsOn(socs, on, off, strict) {
      var k :| 0 <= k < |socs| && SwitchesBandOn(socs[k], on, strict) && forall j :: k < j < |socs| ==> socs[j] >= off;
      assert all[k] == socs[k];
      assert forall j :: k < j < |socs| ==> socs[j] == all[j];
    }
  }

  lemma BandsStep(s: State, i: Inputs)
    requires Usable(i)
    ensures var n := Decide(s, i, Measured(s, i)).next;
            n.bands == if TakesAverages(s, i)
                       then Bands(Some(HighSocActive(i.policy, ResolvedSoc(i).value, s.bands.highSoc)),
                                  EvPriorityActive(i.policy, ResolvedSoc(i).value, s.bands.evPriority))
                       else s.bands
  {
  }

  /** Both bits are as the latest decisive SOC of some sequence says. */
  ghost predicate BitsFollow(socs: seq<real>, b: Bands, p: PolicyValues) {
    && (b.evPriority <==> LatestDecisiveIsOn(socs, p.evPrioritySoc, p.evPriorityRelease, false))
    && (b.highSoc.Some? <==> socs != [])
    && (b.highSoc == Some(true) <==> LatestDecisiveIsOn(socs, p.highSocThreshold, p.highSocRelease, true))
  }

  predicate SameBands(p: PolicyValues, q: PolicyValues) {
    && q.evPrioritySoc == p.evPrioritySoc && q.evPriorityRelease == p.evPriorityRelease
    && q.highSocThreshold == p.highSocThreshold && q.highSocRelease == p.highSocRelease
  }

  ghost predicate FixedBands(run: seq<Frame>, p: PolicyValues) {
    forall k :: 0 <= k < |run| && run[k].event.Tick? ==> SameBands(p, run[k].event.i.policy)
  }

  lemma BitsFollowStep(socs: seq<real>, b: Bands, soc: real, p: PolicyValues, q: PolicyValues)
    requires BitsFollow(socs, b, p) && InRange(p) && SameBands(p, q)
    ensures var next := Bands(Some(HighSocActive(q, soc, b.highSoc)), EvPriorityActive(q, soc, b.evPriority));
            BitsFollow(socs + [soc], next, p)
  {
    LatestDecisiveStep(socs, soc, p.evPrioritySoc, p.evPriorityRelease, false);
    LatestDecisiveStep(socs, soc, p.highSocThreshold, p.highSocRelease, true);
  }

  /** Over any run, both hysteresis bits are on exactly when the latest SOC outside their band, among the SOCs that
      reached the metrics stage, was on the activating side. */
  lemma {:induction false} BitsFollowLatestDecisiveSoc(run: seq<Frame>, n: nat, p: PolicyValues)
    requires MeasuredRun(run) && FixedBands(run, p) && InRange(p) && n < |run|
    ensures BitsFollow(SocsSeen(run, n + 1), run[n].after.bands, p)
  {
    assert MeasuredFrameAt(run, n);
    if n > 0 {
      BitsFollowLatestDecisiveSoc(run, n - 1, p);
    }
    assert BitsFollow(SocsSeen(run, n), run[n].before.bands, p);
    if run[n].event.Tick? {
      var s, i := run[n].before, run[n].event.i;
      BandsStep(s, i);
      if TakesAverages(s, i) {
        BitsFollowStep(SocsSeen(run, n), s.bands, ResolvedSoc(i).value, p, i.policy);
      } else {
        assert SocsSeen(run, n + 1) == SocsSeen(run, n);
      }
    }
  }
}
