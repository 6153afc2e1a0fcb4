/** Battery activity: how charging and discharging batteries reduce the surplus that is really free. */
module Battery {
  import opened Common

  // ---- What is observed and learned ----

  /** One battery source with the maxima learned for it. */
  datatype Source = Source(charge: Option<real>, discharge: Option<real>,
                           maxCharge: Option<real>, maxDischarge: Option<real>)

  datatype Cluster = Cluster(
    combinedCharge: Option<real>, combinedDischarge: Option<real>, combinedSoc: Option<real>,
    balanceError: Option<real>, eligibleCount: int, activeCount: int,
    controlCandidates: int, controlReady: int, supportedCount: int, experimentalCount: int,
    expectedExport: Option<real>, expectedImport: Option<real>)

  datatype Period = Day | Night | UnknownPeriod

  datatype Learned = Learned(
    maxCharge: Option<real>, maxDischarge: Option<real>, responseDelay: Option<real>,
    supportBias: Option<real>, daySupportBias: Option<real>, nightSupportBias: Option<real>,
    importSupportBias: Option<real>, exportBias: Option<real>, reserveFloor: Option<real>)

  datatype BiasMode = Always | ExportOnly | AboveReserveBand | ExportAndAboveReserveBand

  datatype BalanceSettings = BalanceSettings(
    enabled: bool, startError: real, maxPenalty: real, mode: BiasMode, reserveMargin: real,
    coordinationEnabled: bool, coordinationStartError: real, coordinationMaxPenalty: real, allowExperimental: bool)

  datatype BatteryInputs = BatteryInputs(
    sources: seq<Source>, cluster: Cluster, learned: Learned, period: Period, balance: BalanceSettings)

  /** The part of the activity picture that surplus decisions use. */
  datatype Activity = Activity(surplusPenalty: real, chargePenalty: real, dischargePenalty: real,
                               chargePower: Option<real>, expectedExport: real, expectedImport: real)

  // ---- Active powers ----

  function NonNegativeOptional(x: Option<real>): Option<real> {
    if x.Some? && x.value < 0.0 then None else x
  }

  function BoundedOptional(x: Option<real>): Option<real> {
    if x.None? then None else Some(Max(-1.0, Min(1.0, x.value)))
  }

  function ActivityRatio(current: real, observedMax: Option<real>): Option<real> {
    if observedMax.None? || observedMax.value <= 0.0 then None else Some(current / observedMax.value)
  }

  /** Power that counts as active (at least 5 % of the learned maximum), and its ratio. */
  function ActivePower(current: Option<real>, observedMax: Option<real>): (Option<real>, Option<real>) {
    if current.None? || current.value <= 0.0 then (None, None)
    else
      var ratio := ActivityRatio(current.value, observedMax);
      if ratio.Some? && ratio.value < 0.05 then (None, ratio) else (current, ratio)
  }

  function OrZero(x: Option<real>): real { if x.None? then 0.0 else x.value }

  function SourceCharge(s: Source): (r: real)
    ensures r >= 0.0
  {
    OrZero(ActivePower(NonNegativeOptional(s.charge), NonNegativeOptional(s.maxCharge)).0)
  }

  function SourceDischarge(s: Source): (r: real)
    ensures r >= 0.0
  {
    OrZero(ActivePower(NonNegativeOptional(s.discharge), NonNegativeOptional(s.maxDischarge)).0)
  }

  function TotalCharge(sources: seq<Source>): (r: real)
    ensures r >= 0.0
  {
    if sources == [] then 0.0 else TotalCharge(sources[..|sources| - 1]) + SourceCharge(sources[|sources| - 1])
  }

  function TotalDischarge(sources: seq<Source>): (r: real)
    ensures r >= 0.0
  {
    if sources == [] then 0.0 else TotalDischarge(sources[..|sources| - 1]) + SourceDischarge(sources[|sources| - 1])
  }

  /** Sums the active powers of all sources. */
  method SourceActivityPenalties(sources: seq<Source>) returns (charge: real, discharge: real)
    ensures charge == TotalCharge(sources) && discharge == TotalDischarge(sources)
  {
    charge, discharge := 0.0, 0.0;
    for i := 0 to |sources|
      invariant charge == TotalCharge(sources[..i]) && discharge == TotalDischarge(sources[..i])
    {
      assert sources[..i + 1][..i] == sources[..i];
      charge := charge + SourceCharge(sources[i]);
      discharge := discharge + SourceDischarge(sources[i]);
    }
    assert sources[..|sources|] == sources;
  }

  /** Active charging power before scaling: per source when sources are known, else the cluster's. */
  function ActiveCharge(b: BatteryInputs): (r: real)
    ensures r >= 0.0
  {
    if b.sources != [] then TotalCharge(b.sources)
    else OrZero(ActivePower(NonNegativeOptional(b.cluster.combinedCharge), NonNegativeOptional(b.learned.maxCharge)).0)
  }

  function ActiveDischarge(b: BatteryInputs): (r: real)
    ensures r >= 0.0
  {
    if b.sources != [] then TotalDischarge(b.sources)
    else OrZero(ActivePower(NonNegativeOptional(b.cluster.combinedDischarge),
                            NonNegativeOptional(b.learned.maxDischarge)).0)
  }

  // ---- Multipliers ----

  function ResponseFactor(delay: Option<real>): (r: real)
    ensures 1.0 <= r <= 1.5
  {
    if delay.None? then 1.0 else 1.0 + Min(Max(delay.value, 0.0), 60.0) / 120.0
  }

  function ChargeBiasFactor(exportBias: Option<real>): real {
    1.0 + Max(0.0, OrZero(exportBias)) * 0.25
  }

  function DischargeBiasFactor(importBias: Option<real>, supportBias: Option<real>): real {
    1.0 + Max(0.0, OrZero(if importBias.None? then supportBias else importBias)) * 0.25
  }

  function PeriodSupportBias(l: Learned, period: Period): Option<real> {
    var byPeriod := match period
      case Day => BoundedOptional(l.daySupportBias)
      case Night => BoundedOptional(l.nightSupportBias)
      case UnknownPeriod => None;
    if byPeriod.Some? then byPeriod else BoundedOptional(l.supportBias)
  }

  function ChargeMultiplier(l: Learned): (r: real)
    ensures 1.0 <= r <= 1.875
  {
    var response := ResponseFactor(NonNegativeOptional(l.responseDelay));
    var bias := ChargeBiasFactor(BoundedOptional(l.exportBias));
    FactorProduct(response, bias);
    response * bias
  }

  function DischargeMultiplier(l: Learned, period: Period): (r: real)
    ensures 1.0 <= r <= 1.875
  {
    var response := ResponseFactor(NonNegativeOptional(l.responseDelay));
    var bias := DischargeBiasFactor(BoundedOptional(l.importSupportBias), PeriodSupportBias(l, period));
    FactorProduct(response, bias);
    response * bias
  }

  lemma FactorProduct(response: real, bias: real)
    requires 1.0 <= response <= 1.5 && 1.0 <= bias <= 1.25
    ensures 1.0 <= response * bias <= 1.875
  {
    FactorProductLow(response, bias);
    FactorProductHigh(response, bias);
  }

  lemma FactorProductLow(response: real, bias: real)
    requires 1.0 <= response && 1.0 <= bias
    ensures 1.0 <= response * bias
  {
    ProductOrder(1.0, response, bias);
  }

  lemma FactorProductHigh(response: real, bias: real)
    requires response <= 1.5 && 0.0 <= bias <= 1.25
    ensures response * bias <= 1.875
  {
    ProductOrder(response, 1.5, bias);
  }

  // ---- Discharge balance ----

  /** Penalty ramp: zero up to the start error, the cap from twice the start error (at least start + 1 W). */
  function BalancePenalty(error: real, start: real, cap: real): real {
    if start <= 0.0 then (if error > 0.0 then cap else 0.0)
    else Scaled(Ramp(error, start), cap)
  }

  function Ramp(error: real, start: real): (r: real)
    requires start > 0.0
    ensures 0.0 <= r <= 1.0
  {
    Min(Max((error - start) / Max(start, 1.0), 0.0), 1.0)
  }

  function Scaled(power: real, factor: real): real { power * factor }

  function BalanceError(c: Cluster): real { OrZero(NonNegativeOptional(c.balanceError)) }

  predicate ReserveGate(b: BatteryInputs) {
    var soc := NonNegativeOptional(b.cluster.combinedSoc);
    var floor := NonNegativeOptional(b.learned.reserveFloor);
    soc.Some? && floor.Some? && soc.value >= floor.value + Max(0.0, b.balance.reserveMargin)
  }

  predicate BiasGate(b: BatteryInputs) {
    var exporting := OrZero(NonNegativeOptional(b.cluster.expectedExport)) > 0.0;
    match b.balance.mode
    case ExportOnly => exporting
    case AboveReserveBand => ReserveGate(b)
    case ExportAndAboveReserveBand => exporting && ReserveGate(b)
    case Always => true
  }

  function BiasCap(b: BalanceSettings): real { Max(0.0, b.maxPenalty) }

  function CoordinationCap(b: BalanceSettings): real { Max(0.0, b.coordinationMaxPenalty) }

  function BiasPenalty(b: BatteryInputs): real {
    if b.balance.enabled && b.cluster.eligibleCount >= 2 && b.cluster.activeCount >= 1 && BiasGate(b)
       && BiasCap(b.balance) > 0.0
    then BalancePenalty(BalanceError(b.cluster), Max(0.0, b.balance.startError), BiasCap(b.balance))
    else 0.0
  }

  datatype Feasibility = NotNeeded | Supported | Experimental | BlockedByAvailability | Partial | ObserveOnly

  /** First-match advisory on whether the sources could be coordinated. */
  function CoordinationFeasibility(c: Cluster): Feasibility {
    if c.eligibleCount < 2 then NotNeeded
    else if !(c.supportedCount < 2 || c.controlReady < 2) then Supported
    else if !(c.controlReady < 2) && !(c.supportedCount + c.experimentalCount < 2) && !(c.experimentalCount <= 0)
    then Experimental
    else if !(c.controlCandidates < 2) && !(c.controlReady >= 2) then BlockedByAvailability
    else if !(c.controlCandidates < 1) then Partial
    else ObserveOnly
  }

  predicate CoordinationGate(b: BatteryInputs) {
    var f := CoordinationFeasibility(b.cluster);
    b.cluster.controlReady >= 2 && (f == Supported || (b.balance.allowExperimental && f == Experimental))
  }

  function CoordinationPenalty(b: BatteryInputs): real {
    if b.balance.coordinationEnabled && CoordinationGate(b)
    then BalancePenalty(BalanceError(b.cluster), Max(0.0, b.balance.coordinationStartError), CoordinationCap(b.balance))
    else 0.0
  }

  function EffectivePenalty(b: BatteryInputs): real {
    Max(BiasPenalty(b), CoordinationPenalty(b))
  }

  // ---- The combined picture ----

  function CombinedActivity(b: BatteryInputs): Activity {
    var charge := Scaled(ActiveCharge(b), ChargeMultiplier(b.learned));
    var discharge := Scaled(ActiveDischarge(b), DischargeMultiplier(b.learned, b.period));
    var observed := NonNegativeOptional(b.cluster.combinedCharge);
    var power := if observed.None? then ActiveCharge(b) else observed.value;
    Activity(charge + discharge + EffectivePenalty(b), charge, discharge,
             if power > 0.0 then Some(power) else None,
             OrZero(NonNegativeOptional(b.cluster.expectedExport)),
             OrZero(NonNegativeOptional(b.cluster.expectedImport)))
  }

  method CombinedBatteryActivity(b: BatteryInputs) returns (a: Activity)
    ensures a == CombinedActivity(b)
  {
    var charge, discharge;
    if b.sources != [] {
      charge, discharge := SourceActivityPenalties(b.sources);
    } else {
      charge, discharge := ActiveCharge(b), ActiveDischarge(b);
    }
    var observed := NonNegativeOptional(b.cluster.combinedCharge);
    var power := if observed.None? then charge else observed.value;
    var scaledCharge := Scaled(charge, ChargeMultiplier(b.learned));
    var scaledDischarge := Scaled(discharge, DischargeMultiplier(b.learned, b.period));
    var effective := Max(BiasPenalty(b), CoordinationPenalty(b));
    a := Activity(scaledCharge + scaledDischarge + effective, scaledCharge, scaledDischarge,
                  if power > 0.0 then Some(power) else None,
                  OrZero(NonNegativeOptional(b.cluster.expectedExport)),
                  OrZero(NonNegativeOptional(b.cluster.expectedImport)));
  }

  // ---- The figures in closed form ----

  /** A source counts with its power when that is positive and, with a positive learned maximum, at least a twentieth of
      it. */
  lemma SourceCounts(s: Source)
    ensures SourceCharge(s) == CountedPower(s.charge, s.maxCharge)
    ensures SourceDischarge(s) == CountedPower(s.discharge, s.maxDischarge)
  {
    ShareIff(s.charge, s.maxCharge);
    ShareIff(s.discharge, s.maxDischarge);
  }

  function CountedPower(power: Option<real>, maximum: Option<real>): real {
    match (power, maximum)
    case (None, _) => 0.0
    case (Some(p), None) => if p > 0.0 then p else 0.0
    case (Some(p), Some(m)) => if p > 0.0 && (m <= 0.0 || 20.0 * p >= m) then p else 0.0
  }

  lemma ShareIff(power: Option<real>, maximum: Option<real>)
    ensures OrZero(ActivePower(NonNegativeOptional(power), NonNegativeOptional(maximum)).0) ==
            CountedPower(power, maximum)
  {
    if power.Some? && maximum.Some? && maximum.value > 0.0 {
      TwentiethIff(power.value, maximum.value);
    }
  }

  lemma TwentiethIff(power: real, maximum: real)
    requires maximum > 0.0
    ensures power / maximum < 0.05 <==> 20.0 * power < maximum
  {
    var ratio := power / maximum;
    assert ratio * maximum == power;
    if ratio < 0.05 {
      PositiveProduct(0.05 - ratio, maximum);
    } else {
      ProductOrder(0.05, ratio, maximum);
    }
  }

  lemma TotalOfOne(s: Source)
    ensures TotalCharge([s]) == SourceCharge(s) && TotalDischarge([s]) == SourceDischarge(s)
  {
    assert [s][..0] == [];
  }

  /** The total of joined lists is the sum of their totals. With the total of one source this fixes every total. */
  lemma {:induction false} TotalsAdd(a: seq<Source>, b: seq<Source>)
    ensures TotalCharge(a + b) == TotalCharge(a) + TotalCharge(b)
    ensures TotalDischarge(a + b) == TotalDischarge(a) + TotalDischarge(b)
    decreases |b|
  {
    if b == [] {
      assert a + b == a;
    } else {
      var n := |b| - 1;
      assert (a + b)[..|a + b| - 1] == a + b[..n];
      TotalsAdd(a, b[..n]);
    }
  }

  /** The charge multiplier is a response factor that grows by one half over the first minute of delay, times a bias
      factor to which a full export bias adds a quarter. */
  lemma ChargeFactors(l: Learned) returns (response: real, bias: real)
    ensures ChargeMultiplier(l) == response * bias
    ensures 120.0 * response == 120.0 + Delay(l)
    ensures 4.0 * bias == 4.0 + Portion(l.exportBias)
  {
    response := ResponseFactor(NonNegativeOptional(l.responseDelay));
    bias := ChargeBiasFactor(BoundedOptional(l.exportBias));
  }

  /** The discharge multiplier is the same response factor times a bias factor of its own. */
  lemma DischargeFactors(l: Learned, period: Period) returns (response: real, bias: real)
    ensures DischargeMultiplier(l, period) == response * bias
    ensures 120.0 * response == 120.0 + Delay(l)
    ensures 4.0 * bias == 4.0 + Portion(DischargeBias(l, period))
  {
    ResponseMeaning(l);
    DischargeBiasMeaning(l, period);
    response, bias := DischargeProduct(l, period);
  }

  lemma DischargeProduct(l: Learned, period: Period) returns (response: real, bias: real)
    ensures response == ResponseFactor(NonNegativeOptional(l.responseDelay))
    ensures bias == DischargeBiasFactor(BoundedOptional(l.importSupportBias), PeriodSupportBias(l, period))
    ensures DischargeMultiplier(l, period) == response * bias
  {
    response := ResponseFactor(NonNegativeOptional(l.responseDelay));
    bias := DischargeBiasFactor(BoundedOptional(l.importSupportBias), PeriodSupportBias(l, period));
  }

  lemma ResponseMeaning(l: Learned)
    ensures 120.0 * ResponseFactor(NonNegativeOptional(l.responseDelay)) == 120.0 + Delay(l)
  {
  }

  lemma DischargeBiasMeaning(l: Learned, period: Period)
    ensures 4.0 * DischargeBiasFactor(BoundedOptional(l.importSupportBias), PeriodSupportBias(l, period)) ==
            4.0 + Portion(DischargeBias(l, period))
  {
  }

  /** The learned bias of discharging: that of imports, else that of the period, else the general one. */
  function DischargeBias(l: Learned, period: Period): Option<real> {
    match (l.importSupportBias, period, l.daySupportBias, l.nightSupportBias)
    case (Some(_), _, _, _) => l.importSupportBias
    case (None, Day, Some(_), _) => l.daySupportBias
    case (None, Night, _, Some(_)) => l.nightSupportBias
    case _ => l.supportBias
  }

  /** The learned response delay as far as it counts, in seconds. */
  function Delay(l: Learned): real {
    match l.responseDelay
    case None => 0.0
    case Some(x) => if x <= 0.0 then 0.0 else if x >= 60.0 then 60.0 else x
  }

  /** The part of a bias between 0 and 1 that counts. */
  function Portion(bias: Option<real>): real {
    match bias
    case None => 0.0
    case Some(x) => if x <= 0.0 then 0.0 else if x >= 1.0 then 1.0 else x
  }

  /** Between the start error and twice that the penalty grows in proportion to the excess. */
  lemma BalancePenaltySlope(error: real, start: real, cap: real)
    requires start >= 1.0 && start <= error <= 2.0 * start
    ensures BalancePenalty(error, start, cap) * start == (error - start) * cap
  {
    var ramp := (error - start) / start;
    assert ramp * start == error - start;
    QuotientOrder(0.0, error - start, start);
    QuotientOrder(error - start, start, start);
    assert start / start == 1.0;
    assert Ramp(error, start) == ramp;
  }

  /** Below one watt of start error the ramp is one watt wide; without a start error any imbalance costs the cap. */
  lemma BalancePenaltyNarrow(error: real, start: real, cap: real)
    ensures start <= 0.0 ==> BalancePenalty(error, start, cap) == if error > 0.0 then cap else 0.0
    ensures 0.0 < start <= 1.0 && start <= error <= start + 1.0 ==>
              BalancePenalty(error, start, cap) == (error - start) * cap
    ensures 0.0 < start <= 1.0 && error >= start + 1.0 ==> BalancePenalty(error, start, cap) == cap
  {
    if 0.0 < start <= 1.0 {
      assert (error - start) / 1.0 == error - start;
    }
  }

  /** The bias penalty in closed form: at least two eligible sources of which one is active, and the conditions of the
      mode on expected export and on the charge above the reserve; else nothing. */
  lemma BiasPenaltyMeaning(b: BatteryInputs)
    ensures var c := b.cluster;
            var exporting := c.expectedExport.Some? && c.expectedExport.value > 0.0;
            var margin := if b.balance.reserveMargin >= 0.0 then b.balance.reserveMargin else 0.0;
            var reserved := c.combinedSoc.Some? && c.combinedSoc.value >= 0.0 && b.learned.reserveFloor.Some? &&
                            b.learned.reserveFloor.value >= 0.0 &&
                            c.combinedSoc.value >= b.learned.reserveFloor.value + margin;
            var allowed := && b.balance.enabled && c.eligibleCount >= 2 && c.activeCount >= 1
                           && (b.balance.mode in {ExportOnly, ExportAndAboveReserveBand} ==> exporting)
                           && (b.balance.mode in {AboveReserveBand, ExportAndAboveReserveBand} ==> reserved);
            var error := if c.balanceError.Some? && c.balanceError.value >= 0.0 then c.balanceError.value else 0.0;
            var start := if b.balance.startError >= 0.0 then b.balance.startError else 0.0;
            BiasPenalty(b) == if allowed && b.balance.maxPenalty > 0.0
                              then BalancePenalty(error, start, b.balance.maxPenalty) else 0.0
  {
  }

  /** The coordination penalty in closed form. */
  lemma CoordinationPenaltyMeaning(b: BatteryInputs)
    ensures var c := b.cluster;
            var allowed := && b.balance.coordinationEnabled && c.eligibleCount >= 2 && c.controlReady >= 2
                           && (c.supportedCount >= 2 || (b.balance.allowExperimental && c.experimentalCount >= 1 &&
                                                         c.supportedCount + c.experimentalCount >= 2));
            var error := if c.balanceError.Some? && c.balanceError.value >= 0.0 then c.balanceError.value else 0.0;
            var start := if b.balance.coordinationStartError >= 0.0 then b.balance.coordinationStartError else 0.0;
            var cap := if b.balance.coordinationMaxPenalty >= 0.0 then b.balance.coordinationMaxPenalty else 0.0;
            CoordinationPenalty(b) == if allowed then BalancePenalty(error, start, cap) else 0.0
  {
  }

  /** The combined picture: both scaled powers and the larger balance penalty together, the observed charging power or
      else the active one when positive, and the expected exchange as far as it is not negative. */
  lemma CombinedMeaning(b: BatteryInputs)
    ensures var a := CombinedActivity(b);
            var bias, coordination := BiasPenalty(b), CoordinationPenalty(b);
            var observed := b.cluster.combinedCharge;
            var power := if observed.Some? && observed.value >= 0.0 then observed.value else ActiveCharge(b);
            && a.chargePenalty == ActiveCharge(b) * ChargeMultiplier(b.learned)
            && a.dischargePenalty == ActiveDischarge(b) * DischargeMultiplier(b.learned, b.period)
            && a.surplusPenalty - a.chargePenalty - a.dischargePenalty ==
               (if bias >= coordination then bias else coordination)
            && a.chargePower == (if power > 0.0 then Some(power) else None)
            && a.expectedExport == CountedPower(b.cluster.expectedExport, None)
            && a.expectedImport == CountedPower(b.cluster.expectedImport, None)
  {
  }

  /** With sources the active powers are their totals. */
  lemma SourcesCount(b: BatteryInputs)
    requires b.sources != []
    ensures ActiveCharge(b) == TotalCharge(b.sources) && ActiveDischarge(b) == TotalDischarge(b.sources)
  {
  }

  /** Without sources the active powers are the combined ones of the cluster, counted against the learned maxima. */
  lemma ClusterCounts(b: BatteryInputs)
    requires b.sources == []
    ensures ActiveCharge(b) == CountedPower(b.cluster.combinedCharge, b.learned.maxCharge)
    ensures ActiveDischarge(b) == CountedPower(b.cluster.combinedDischarge, b.learned.maxDischarge)
  {
    ShareIff(b.cluster.combinedCharge, b.learned.maxCharge);
    ShareIff(b.cluster.combinedDischarge, b.learned.maxDischarge);
  }

  // ---- Bounds ----

  /** The ramp stays between zero and its cap and never falls when the error grows. */
  lemma BalancePenaltyRamp(error: real, larger: real, start: real, cap: real)
    requires cap >= 0.0 && error <= larger
    ensures 0.0 <= BalancePenalty(error, start, cap) <= cap
    ensures BalancePenalty(error, start, cap) <= BalancePenalty(larger, start, cap)
    ensures start > 0.0 && error <= start ==> BalancePenalty(error, start, cap) == 0.0
    ensures start >= 1.0 && error >= 2.0 * start ==> BalancePenalty(error, start, cap) == cap
  {
    if start > 0.0 {
      RampOrder(error, larger, start);
      RampEnds(error, start);
      ScaleOrder(cap, Ramp(error, start), Ramp(larger, start));
    }
  }

  lemma RampOrder(error: real, larger: real, start: real)
    requires start > 0.0 && error <= larger
    ensures Ramp(error, start) <= Ramp(larger, start)
  {
    QuotientOrder(error - start, larger - start, Max(start, 1.0));
  }

  lemma RampEnds(error: real, start: real)
    requires start > 0.0
    ensures error <= start ==> Ramp(error, start) == 0.0
    ensures start >= 1.0 && error >= 2.0 * start ==> Ramp(error, start) == 1.0
  {
    if error <= start {
      QuotientOrder(error - start, 0.0, Max(start, 1.0));
    } else if start >= 1.0 && error >= 2.0 * start {
      QuotientOrder(start, error - start, start);
    }
  }

  lemma ScaleOrder(cap: real, low: real, high: real)
    requires cap >= 0.0 && 0.0 <= low <= high <= 1.0
    ensures 0.0 <= Scaled(low, cap) <= Scaled(high, cap) <= cap
  {
    ProductOrder(0.0, low, cap);
    ProductOrder(low, high, cap);
    ScaledAtMost(cap, high);
  }

  lemma ScaledAtMost(cap: real, high: real)
    requires cap >= 0.0 && high <= 1.0
    ensures Scaled(high, cap) <= cap
  {
    ProductOrder(high, 1.0, cap);
  }

  /** The gates in closed form: when imbalance may lower the surplus at all. */
  lemma CoordinationGateCondition(b: BatteryInputs)
    ensures var c := b.cluster;
            CoordinationGate(b) <==>
            c.eligibleCount >= 2 && c.controlReady >= 2 &&
            (c.supportedCount >= 2 ||
             (b.balance.allowExperimental && c.experimentalCount >= 1 && c.supportedCount + c.experimentalCount >= 2))
  {
  }

  /** Surplus penalty of any set of sources: at least the active powers, at most 1.875 times them plus the larger
      balance cap. */
  lemma PenaltyBounds(b: BatteryInputs)
    ensures var s := ActiveCharge(b) + ActiveDischarge(b);
            var a := CombinedActivity(b);
            s <= a.surplusPenalty <= 1.875 * s + Max(BiasCap(b.balance), CoordinationCap(b.balance))
    ensures var a := CombinedActivity(b);
            0.0 <= a.chargePenalty && 0.0 <= a.dischargePenalty && a.chargePenalty + a.dischargePenalty <= a.surplusPenalty
    ensures 0.0 <= BiasPenalty(b) <= BiasCap(b.balance)
    ensures 0.0 <= CoordinationPenalty(b) <= CoordinationCap(b.balance)
  {
    var e := BalanceError(b.cluster);
    BalancePenaltyRamp(e, e, Max(0.0, b.balance.startError), BiasCap(b.balance));
    BalancePenaltyRamp(e, e, Max(0.0, b.balance.coordinationStartError), CoordinationCap(b.balance));
    MultiplierBounds(ActiveCharge(b), ChargeMultiplier(b.learned));
    MultiplierBounds(ActiveDischarge(b), DischargeMultiplier(b.learned, b.period));
  }

  lemma MultiplierBounds(power: real, factor: real)
    requires power >= 0.0 && 1.0 <= factor <= 1.875
    ensures power <= Scaled(power, factor) <= 1.875 * power
  {
    ProductOrder(1.0, factor, power);
    ProductOrder(factor, 1.875, power);
  }

  /** Raising the measured imbalance never lowers either balance penalty. */
  lemma PenaltiesGrowWithError(b: BatteryInputs, c: BatteryInputs)
    requires c == b.(cluster := b.cluster.(balanceError := c.cluster.balanceError))
    requires BalanceError(b.cluster) <= BalanceError(c.cluster)
    ensures BiasPenalty(b) <= BiasPenalty(c)
    ensures CoordinationPenalty(b) <= CoordinationPenalty(c)
    ensures EffectivePenalty(b) <= EffectivePenalty(c)
  {
    var e, f := BalanceError(b.cluster), BalanceError(c.cluster);
    BalancePenaltyRamp(e, f, Max(0.0, b.balance.startError), BiasCap(b.balance));
    BalancePenaltyRamp(e, f, Max(0.0, b.balance.coordinationStartError), CoordinationCap(b.balance));
    assert BiasGate(b) == BiasGate(c);
    assert CoordinationGate(b) == CoordinationGate(c);
  }
}
