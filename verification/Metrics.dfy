/** The smoothed, battery-adjusted surplus and grid values a decision is based on. */
module Metrics {
  import opened Common
  import opened Policy
  import opened TimedWindow
  import opened Samples
  import opened Battery
  import opened AutoState
  import opened AutoTable
  import opened AutoSteps
  import Learning

  function ReclaimableCharge(observed: real, grid: real): real {
    Max(0.0, observed - Max(0.0, grid))
  }

  function AppliedPenalty(total: real, charge: real, active: bool): real {
    if active then Max(0.0, total - charge) else total
  }

  function PriorityAvailable(active: bool, base: real, pv: real, reclaimable: real, load: real): real {
    if active then Max(base, Min(Max(0.0, pv), base + reclaimable + load)) else base
  }

  function NearTermAdjustment(a: Activity): real {
    a.expectedExport * 0.15 - a.expectedImport * 0.15
  }

  /** The surplus a decision compares with its thresholds. */
  function DecisionSurplus(active: bool, raw: real, pv: real, grid: real, load: real, a: Activity): real {
    var base := Max(0.0, raw);
    PriorityAvailable(active, base, pv, ReclaimableCharge(OrZero(a.chargePower), grid), if active then load else 0.0)
    - AppliedPenalty(a.surplusPenalty, a.chargePenalty, active)
    + NearTermAdjustment(a)
  }

  /** Giving the EV priority never lowers the surplus, and raises it by no more than the PV power beyond the base
      surplus plus the charge penalty it waives. */
  lemma EvPriorityGain(raw: real, pv: real, grid: real, load: real, a: Activity)
    requires 0.0 <= a.chargePenalty && 0.0 <= a.surplusPenalty && load >= 0.0
    ensures var base := Max(0.0, raw);
            var gain := DecisionSurplus(true, raw, pv, grid, load, a) - DecisionSurplus(false, raw, pv, grid, load, a);
            0.0 <= gain <= Max(0.0, pv - base) + a.chargePenalty
  {
  }

  /** Without EV priority the surplus is the positive part of the averaged one, less the whole penalty, with 15 % of the
      expected exchange with the grid. */
  lemma SurplusWithoutPriority(raw: real, pv: real, grid: real, load: real, a: Activity)
    ensures DecisionSurplus(false, raw, pv, grid, load, a) ==
            (if raw >= 0.0 then raw else 0.0) - a.surplusPenalty + 3.0 * (a.expectedExport - a.expectedImport) / 20.0
  {
  }

  /** What EV priority is worth exactly: the charge penalty, as far as a penalty was deducted, and the reclaimable battery
      charge and own load, as far as PV exceeds the base surplus. */
  lemma EvPriorityWorth(raw: real, pv: real, grid: real, load: real, a: Activity, reclaimed: real, room: real)
    requires 0.0 <= a.chargePenalty && 0.0 <= a.surplusPenalty && load >= 0.0
    requires var charge := if a.chargePower.Some? then a.chargePower.value else 0.0;
             var imported := if grid >= 0.0 then grid else 0.0;
             reclaimed == if charge >= imported then charge - imported else 0.0
    requires room == (if pv >= 0.0 then pv else 0.0) - (if raw >= 0.0 then raw else 0.0)
    ensures var gain := DecisionSurplus(true, raw, pv, grid, load, a) - DecisionSurplus(false, raw, pv, grid, load, a);
            var waived := if a.chargePenalty <= a.surplusPenalty then a.chargePenalty else a.surplusPenalty;
            && (room <= 0.0 ==> gain == waived)
            && (0.0 <= room <= reclaimed + load ==> gain == waived + room)
            && (room >= reclaimed + load ==> gain == waived + reclaimed + load)
  {
  }

  /** The deque after the sample of this decision has been added and old samples pruned. */
  function SampledDeque(s: State, i: Inputs): seq<Sample>
    requires i.pv.Some? && i.grid.Some?
  {
    var sample := Timed(i.now, Reading(AvailableSurplus(i.pv.value, i.grid.value), i.grid.value));
    Pruned(s.trail.samples + [sample], i.now - i.settings.averageWindow)
  }

  lemma SampleSurvives(s: State, i: Inputs)
    requires i.pv.Some? && i.grid.Some? && i.settings.averageWindow >= 0.0
    ensures SampledDeque(s, i) != []
  {
    PrunedStep(s.trail.samples + [Timed(i.now, Reading(AvailableSurplus(i.pv.value, i.grid.value), i.grid.value))],
               i.now - i.settings.averageWindow);
  }

  /** The sample that a decision adds: at its time, the grid power as it is and as surplus the lesser of PV power and
      export, neither of them negative. */
  lemma LatestSample(s: State, i: Inputs)
    requires i.pv.Some? && i.grid.Some? && i.settings.averageWindow >= 0.0
    ensures var deque := SampledDeque(s, i);
            var pv := if i.pv.value >= 0.0 then i.pv.value else 0.0;
            var exported := if i.grid.value <= 0.0 then -i.grid.value else 0.0;
            && deque != []
            && deque[|deque| - 1] == Timed(i.now, Reading(if pv <= exported then pv else exported, i.grid.value))
  {
    PrunedStep(s.trail.samples + [Timed(i.now, Reading(AvailableSurplus(i.pv.value, i.grid.value), i.grid.value))],
               i.now - i.settings.averageWindow);
  }

  /** Start and stop surplus thresholds in force for the profile the state has selected. */
  function ThresholdsInForce(s: State, i: Inputs, soc: real): ProfileValues
    requires i.policy.learn.referencePower > 0.0
  {
    Learning.Thresholds(ActiveProfile(i.policy, HighSocActive(i.policy, soc, s.bands.highSoc)),
                        Learning.Scale(i.policy.learn, i.learned, i.now))
  }

  /** The trail after smoothing the means of the deque; with the relay off nothing is smoothed. */
  function NextTrail(t: Trail, deque: seq<Sample>, e: EwmaValues, relayOn: bool): Trail
    requires deque != []
  {
    if !relayOn then Trail(deque, None, None)
    else
      var alpha := AdaptiveAlpha(e, deque);
      Trail(deque, Some(Smooth(t.surplus, Mean(Surpluses(deque)), alpha)),
            Some(Smooth(t.grid, Mean(Grids(deque)), alpha)))
  }

  /** Adds the sample, smooths, updates both hysteresis bits and returns the decision metrics. */
  function Observe(s: State, i: Inputs, soc: real): Observation
    requires Usable(i) && i.pv.Some? && i.grid.Some?
  {
    SampleSurvives(s, i);
    var deque := SampledDeque(s, i);
    var trail := NextTrail(s.trail, deque, i.policy.ewma, i.relayOn);
    var surplus := if i.relayOn then trail.surplus.value else Mean(Surpluses(deque));
    var grid := if i.relayOn then trail.grid.value else Mean(Grids(deque));
    var ev := EvPriorityActive(i.policy, soc, s.bands.evPriority);
    Observation(s.(trail := trail, bands := Bands(Some(HighSocActive(i.policy, soc, s.bands.highSoc)), ev)),
                DecisionSurplus(ev, surplus, i.pv.value, grid, if i.relayOn then i.chargingPower else 0.0,
                                CombinedActivity(i.battery)),
                grid, ThresholdsInForce(s, i, soc))
  }

  /** The values a decision compares, with the relay off: the grid value is the number that times the number of samples is
      the sum of the sampled ones, the surplus comes from such a number without any own load, and nothing stays
      smoothed. */
  lemma IdleAverages(s: State, i: Inputs, soc: real, surplus: real, grid: real)
    requires Usable(i) && i.pv.Some? && i.grid.Some? && !i.relayOn
    requires var deque := SampledDeque(s, i);
             surplus * |deque| as real == Sum(Surpluses(deque)) && grid * |deque| as real == Sum(Grids(deque))
    ensures var o := Observe(s, i, soc);
            && o.grid == grid && o.state.trail == Trail(SampledDeque(s, i), None, None)
            && o.surplus == DecisionSurplus(o.state.bands.evPriority, surplus, i.pv.value, grid, 0.0,
                                            CombinedActivity(i.battery))
  {
    SampleSurvives(s, i);
    MeanIsOnly(Surpluses(SampledDeque(s, i)), surplus);
    MeanIsOnly(Grids(SampledDeque(s, i)), grid);
  }

  lemma MeanIsOnly(xs: seq<real>, average: real)
    requires xs != [] && average * |xs| as real == Sum(xs)
    ensures average == Mean(xs)
  {
  }

  /** With the relay on: both values are smoothed towards the averages of the samples by the same factor, and taken as
      they are at first; the surplus may count the charging power as its own load. */
  lemma RunningAverages(s: State, i: Inputs, soc: real)
    requires Usable(i) && i.pv.Some? && i.grid.Some? && i.relayOn
    ensures var deque, o := SampledDeque(s, i), Observe(s, i, soc);
            && o.state.trail.samples == deque && o.state.trail.grid == Some(o.grid) && o.state.trail.surplus.Some?
            && StepsTowards(s.trail.grid, o.grid, Sum(Grids(deque)), |deque|, AdaptiveAlpha(i.policy.ewma, deque))
            && StepsTowards(s.trail.surplus, o.state.trail.surplus.value, Sum(Surpluses(deque)), |deque|,
                            AdaptiveAlpha(i.policy.ewma, deque))
            && o.surplus == DecisionSurplus(o.state.bands.evPriority, o.state.trail.surplus.value, i.pv.value, o.grid,
                                            i.chargingPower, CombinedActivity(i.battery))
  {
    SampleSurvives(s, i);
    var deque := SampledDeque(s, i);
    var alpha := AdaptiveAlpha(i.policy.ewma, deque);
    StepTowardsMean(s.trail.grid, Grids(deque), alpha);
    StepTowardsMean(s.trail.surplus, Surpluses(deque), alpha);
  }

  /** The thresholds and bits of an observation: the high-SOC profile is selected above its threshold and kept down to its
      release, EV priority from its own SOC on down to its release, and the thresholds are those of the profile. */
  lemma ProfileInForce(s: State, i: Inputs, soc: real)
    requires Usable(i) && i.pv.Some? && i.grid.Some?
    ensures var o := Observe(s, i, soc);
            var high := if s.bands.highSoc == Some(true) then soc >= i.policy.highSocRelease
                        else soc > i.policy.highSocThreshold;
            && o.state.bands.highSoc == Some(high)
            && (o.state.bands.evPriority <==>
                if s.bands.evPriority then soc >= i.policy.evPriorityRelease else soc >= i.policy.evPrioritySoc)
            && o.thresholds == Learning.Thresholds(if high then i.policy.highSoc else i.policy.normal,
                                                   Learning.Scale(i.policy.learn, i.learned, i.now))
  {
  }

  /** A value after one step with a factor towards the average of n values with a sum, from a previous value if any. */
  predicate StepsTowards(previous: Option<real>, value: real, sum: real, n: nat, alpha: real) {
    if previous.None? then value * n as real == sum
    else (value - previous.value) * n as real == alpha * (sum - previous.value * n as real)
  }

  lemma StepTowardsMean(previous: Option<real>, xs: seq<real>, alpha: real)
    requires xs != []
    ensures StepsTowards(previous, Smooth(previous, Mean(xs), alpha), Sum(xs), |xs|, alpha)
  {
    MeanTimesCount(xs);
    if previous.Some? {
      StepTimesCount(previous.value, Mean(xs), |xs| as real, alpha, Sum(xs));
    }
  }

  lemma StepTimesCount(p: real, mean: real, n: real, alpha: real, sum: real)
    requires mean * n == sum
    ensures (p + alpha * (mean - p) - p) * n == alpha * (sum - p * n)
  {
    calc {
      alpha * (mean - p) * n;
      alpha * (mean * n - p * n);
      alpha * (sum - p * n);
    }
  }

  /** One or no sample leaves the base factor, whatever the volatility limits. */
  lemma FewSamplesAlpha(e: EwmaValues, samples: seq<Sample>)
    requires |samples| <= 1
    ensures AdaptiveAlpha(e, samples) == e.baseAlpha
  {
  }

  /** What the metrics stage observes in a decision that takes averages. */
  function Measured(s: State, i: Inputs): Observation
    requires Usable(i)
  {
    if TakesAverages(s, i) then Observe(Entry(s, i), i, ResolvedSoc(i).value)
    else Observation(s, 0.0, 0.0, ProfileValues(0.0, 0.0))
  }

  /** Measuring touches nothing but the samples, the smoothed values and the hysteresis bits. */
  lemma MeasuredFrame(s: State, i: Inputs)
    requires Usable(i)
    ensures Framed(s, i, Measured(s, i))
  {
  }
}
