/** The Auto policy: mutable threshold, smoothing, learning and phase settings and their clamp. */
module Policy {
  import opened Common

  // ---- Values of the policy objects ----

  datatype ProfileValues = ProfileValues(start: real, stop: real)

  datatype EwmaValues = EwmaValues(
    baseAlpha: real, stableAlpha: real, volatileAlpha: real,
    volatilityLow: real, volatilityHigh: real)

  datatype LearnValues = LearnValues(
    enabled: bool, referencePower: real, minWatts: real, alpha: real,
    startDelay: real, window: real, maxAge: real)

  datatype PhaseValues = PhaseValues(
    enabled: bool, upshiftDelay: real, downshiftDelay: real,
    upshiftHeadroom: real, downshiftMargin: real,
    mismatchRetry: real, lockoutCount: int, lockoutSeconds: real,
    preferLowest: bool)

  datatype PolicyValues = PolicyValues(
    normal: ProfileValues, highSoc: ProfileValues,
    highSocThreshold: real, highSocRelease: real,
    minSoc: real, resumeSoc: real,
    evPrioritySoc: real, evPriorityRelease: real,
    startMaxImport: real, stopImport: real,
    gridRecovery: real, stopSurplusDelay: real,
    ewma: EwmaValues, learn: LearnValues, phase: PhaseValues)

  // ---- What a clamped policy guarantees ----

  predicate IsFraction(x: real) { 0.0 < x <= 1.0 }

  predicate IsPercentage(x: real) { 0.0 <= x <= 100.0 }

  predicate EwmaInRange(e: EwmaValues) {
    && IsFraction(e.baseAlpha) && IsFraction(e.stableAlpha) && IsFraction(e.volatileAlpha)
    && 0.0 <= e.volatilityLow <= e.volatilityHigh
  }

  predicate LearnInRange(l: LearnValues) {
    && l.referencePower > 0.0 && IsFraction(l.alpha)
    && l.minWatts >= 0.0 && l.startDelay >= 0.0 && l.window >= 0.0 && l.maxAge >= 0.0
  }

  predicate PhaseInRange(p: PhaseValues) {
    && p.upshiftDelay >= 0.0 && p.downshiftDelay >= 0.0
    && p.upshiftHeadroom >= 0.0 && p.downshiftMargin >= 0.0
    && p.mismatchRetry >= 0.0 && p.lockoutCount >= 0 && p.lockoutSeconds >= 0.0
  }

  /** Every ordering and range the Auto controller relies on. */
  predicate InRange(p: PolicyValues) {
    && p.normal.stop <= p.normal.start
    && p.highSoc.stop <= p.highSoc.start
    && IsPercentage(p.highSocThreshold) && IsPercentage(p.highSocRelease)
    && p.highSocRelease <= p.highSocThreshold
    && IsPercentage(p.minSoc) && IsPercentage(p.resumeSoc) && p.minSoc <= p.resumeSoc
    && IsPercentage(p.evPrioritySoc) && IsPercentage(p.evPriorityRelease)
    && p.evPriorityRelease <= p.evPrioritySoc
    && p.gridRecovery >= 0.0 && p.stopSurplusDelay >= 0.0
    && EwmaInRange(p.ewma) && LearnInRange(p.learn) && PhaseInRange(p.phase)
  }

  // ---- The clamp on values ----

  function NonNegative(x: real): real { if x >= 0.0 then x else 0.0 }

  function Percentage(x: real): real {
    if IsPercentage(x) then x else Min(100.0, Max(0.0, x))
  }

  function Fraction(x: real, default: real): real { if IsFraction(x) then x else default }

  function ClampProfile(p: ProfileValues): ProfileValues {
    p.(stop := Min(p.stop, p.start))
  }

  function ClampEwma(e: EwmaValues): EwmaValues {
    var low := NonNegative(e.volatilityLow);
    EwmaValues(Fraction(e.baseAlpha, 0.35), Fraction(e.stableAlpha, 0.55), Fraction(e.volatileAlpha, 0.15),
               low, Max(NonNegative(e.volatilityHigh), low))
  }

  function ClampLearn(l: LearnValues): LearnValues {
    LearnValues(l.enabled, if l.referencePower <= 0.0 then 1900.0 else l.referencePower,
                NonNegative(l.minWatts), Fraction(l.alpha, 0.2),
                NonNegative(l.startDelay), NonNegative(l.window), NonNegative(l.maxAge))
  }

  function ClampPhase(p: PhaseValues): PhaseValues {
    PhaseValues(p.enabled, NonNegative(p.upshiftDelay), NonNegative(p.downshiftDelay),
                NonNegative(p.upshiftHeadroom), NonNegative(p.downshiftMargin),
                NonNegative(p.mismatchRetry), if p.lockoutCount >= 0 then p.lockoutCount else 0,
                NonNegative(p.lockoutSeconds), p.preferLowest)
  }

  function ClampValues(p: PolicyValues): PolicyValues {
    var minSoc := Percentage(p.minSoc);
    var threshold := Percentage(p.highSocThreshold);
    var priority := Percentage(p.evPrioritySoc);
    PolicyValues(ClampProfile(p.normal), ClampProfile(p.highSoc),
                 threshold, Min(Percentage(p.highSocRelease), threshold),
                 minSoc, Max(Percentage(p.resumeSoc), minSoc),
                 priority, Min(Percentage(p.evPriorityRelease), priority),
                 p.startMaxImport, p.stopImport,
                 NonNegative(p.gridRecovery), NonNegative(p.stopSurplusDelay),
                 ClampEwma(p.ewma), ClampLearn(p.learn), ClampPhase(p.phase))
  }

  /** Clamping establishes every invariant and leaves exactly the valid policies alone. */
  lemma ClampIsProjection(p: PolicyValues)
    ensures InRange(ClampValues(p))
    ensures ClampValues(p) == p <==> InRange(p)
    ensures ClampValues(ClampValues(p)) == ClampValues(p)
  {
    ClampFixes(p);
    ClampFixes(ClampValues(p));
  }

  lemma ClampFixes(p: PolicyValues)
    ensures InRange(p) ==> ClampValues(p) == p
    ensures InRange(ClampValues(p))
  {
    if InRange(p) {
      assert ClampProfile(p.normal) == p.normal && ClampProfile(p.highSoc) == p.highSoc;
      assert ClampEwma(p.ewma) == p.ewma;
      assert ClampLearn(p.learn) == p.learn;
      assert ClampPhase(p.phase) == p.phase;
    }
    assert EwmaInRange(ClampEwma(p.ewma));
  }

  /** Where the clamp moves what is out of range: percentages and nonnegative values to the nearest end, a follower to its
      leader, smoothing factors and the reference power to their defaults; the two import limits are never moved. */
  lemma ClampMeaning(p: PolicyValues)
    ensures var c := ClampValues(p);
            && NearestPercentage(p.minSoc, c.minSoc) && NearestPercentage(p.highSocThreshold, c.highSocThreshold)
            && NearestPercentage(p.evPrioritySoc, c.evPrioritySoc)
            && Follows(p.resumeSoc, c.resumeSoc, c.minSoc, 100.0)
            && Follows(p.highSocRelease, c.highSocRelease, 0.0, c.highSocThreshold)
            && Follows(p.evPriorityRelease, c.evPriorityRelease, 0.0, c.evPrioritySoc)
            && c.normal.start == p.normal.start && c.highSoc.start == p.highSoc.start
            && c.normal.stop == (if p.normal.stop <= p.normal.start then p.normal.stop else p.normal.start)
            && c.highSoc.stop == (if p.highSoc.stop <= p.highSoc.start then p.highSoc.stop else p.highSoc.start)
            && c.startMaxImport == p.startMaxImport && c.stopImport == p.stopImport
            && NotNegative(p.gridRecovery, c.gridRecovery) && NotNegative(p.stopSurplusDelay, c.stopSurplusDelay)
  {
  }

  /** The same for the smoothing, learning and phase settings. */
  lemma ClampPartsMeaning(p: PolicyValues)
    ensures var (e, f) := (p.ewma, ClampValues(p).ewma);
            && f.baseAlpha == (if 0.0 < e.baseAlpha <= 1.0 then e.baseAlpha else 0.35)
            && f.stableAlpha == (if 0.0 < e.stableAlpha <= 1.0 then e.stableAlpha else 0.55)
            && f.volatileAlpha == (if 0.0 < e.volatileAlpha <= 1.0 then e.volatileAlpha else 0.15)
            && NotNegative(e.volatilityLow, f.volatilityLow)
            && f.volatilityHigh == (if e.volatilityHigh >= f.volatilityLow then e.volatilityHigh else f.volatilityLow)
    ensures var (l, m) := (p.learn, ClampValues(p).learn);
            && m.enabled == l.enabled
            && m.referencePower == (if l.referencePower > 0.0 then l.referencePower else 1900.0)
            && m.alpha == (if 0.0 < l.alpha <= 1.0 then l.alpha else 0.2)
            && NotNegative(l.minWatts, m.minWatts) && NotNegative(l.startDelay, m.startDelay)
            && NotNegative(l.window, m.window) && NotNegative(l.maxAge, m.maxAge)
    ensures var (a, b) := (p.phase, ClampValues(p).phase);
            && b.enabled == a.enabled && b.preferLowest == a.preferLowest
            && NotNegative(a.upshiftDelay, b.upshiftDelay) && NotNegative(a.downshiftDelay, b.downshiftDelay)
            && NotNegative(a.upshiftHeadroom, b.upshiftHeadroom) && NotNegative(a.downshiftMargin, b.downshiftMargin)
            && NotNegative(a.mismatchRetry, b.mismatchRetry) && NotNegative(a.lockoutSeconds, b.lockoutSeconds)
            && b.lockoutCount == if a.lockoutCount < 0 then 0 else a.lockoutCount
  {
  }

  /** y is the number nearest to x that is not negative. */
  predicate NotNegative(x: real, y: real) { y >= 0.0 && (y == x || (x < 0.0 && y == 0.0)) }

  predicate NearestPercentage(x: real, y: real) { Follows(x, y, 0.0, 100.0) }

  /** y is the number nearest to x between low and high. */
  predicate Follows(x: real, y: real, low: real, high: real) {
    low <= y <= high && (x < y ==> y == low) && (x > y ==> y == high)
  }

  // ---- The mutable policy objects ----

  class AutoThresholdProfile {
    var startSurplusWatts: real
    var stopSurplusWatts: real

    ghost function Value(): ProfileValues
      reads this
    {
      ProfileValues(startSurplusWatts, stopSurplusWatts)
    }

    constructor (start: real, stop: real)
      ensures Value() == ProfileValues(start, stop)
    {
      startSurplusWatts, stopSurplusWatts := start, stop;
    }

    method Clamp()
      modifies this
      ensures Value() == ClampProfile(old(Value()))
    {
      if stopSurplusWatts <= startSurplusWatts {
        return;
      }
      stopSurplusWatts := startSurplusWatts;
    }
  }

  class AutoStopEwmaPolicy {
    var baseAlpha: real
    var stableAlpha: real
    var volatileAlpha: real
    var volatilityLowWatts: real
    var volatilityHighWatts: real

    ghost function Value(): EwmaValues
      reads this
    {
      EwmaValues(baseAlpha, stableAlpha, volatileAlpha, volatilityLowWatts, volatilityHighWatts)
    }

    constructor (v: EwmaValues)
      ensures Value() == v
    {
      baseAlpha, stableAlpha, volatileAlpha := v.baseAlpha, v.stableAlpha, v.volatileAlpha;
      volatilityLowWatts, volatilityHighWatts := v.volatilityLow, v.volatilityHigh;
    }

    method Clamp()
      modifies this
      ensures Value() == ClampEwma(old(Value()))
    {
      baseAlpha := Fraction(baseAlpha, 0.35);
      stableAlpha := Fraction(stableAlpha, 0.55);
      volatileAlpha := Fraction(volatileAlpha, 0.15);
      if volatilityLowWatts < 0.0 {
        volatilityLowWatts := 0.0;
      }
      if volatilityHighWatts < 0.0 {
        volatilityHighWatts := 0.0;
      }
      if volatilityHighWatts < volatilityLowWatts {
        volatilityHighWatts := volatilityLowWatts;
      }
    }
  }

  class AutoLearnChargePowerPolicy {
    var enabled: bool
    var referencePowerWatts: real
    var minWatts: real
    var alpha: real
    var startDelaySeconds: real
    var windowSeconds: real
    var maxAgeSeconds: real

    ghost function Value(): LearnValues
      reads this
    {
      LearnValues(enabled, referencePowerWatts, minWatts, alpha, startDelaySeconds, windowSeconds, maxAgeSeconds)
    }

    constructor (v: LearnValues)
      ensures Value() == v
    {
      enabled, referencePowerWatts, minWatts, alpha := v.enabled, v.referencePower, v.minWatts, v.alpha;
      startDelaySeconds, windowSeconds, maxAgeSeconds := v.startDelay, v.window, v.maxAge;
    }

    method Clamp()
      modifies this
      ensures Value() == ClampLearn(old(Value()))
    {
      if referencePowerWatts <= 0.0 {
        referencePowerWatts := 1900.0;
      }
      minWatts := NonNegative(minWatts);
      alpha := Fraction(alpha, 0.2);
      startDelaySeconds := NonNegative(startDelaySeconds);
      windowSeconds := NonNegative(windowSeconds);
      maxAgeSeconds := NonNegative(maxAgeSeconds);
    }
  }

  class AutoPhasePolicy {
    var enabled: bool
    var upshiftDelaySeconds: real
    var downshiftDelaySeconds: real
    var upshiftHeadroomWatts: real
    var downshiftMarginWatts: real
    var mismatchRetrySeconds: real
    var mismatchLockoutCount: int
    var mismatchLockoutSeconds: real
    var preferLowestPhaseWhenIdle: bool

    ghost function Value(): PhaseValues
      reads this
    {
      PhaseValues(enabled, upshiftDelaySeconds, downshiftDelaySeconds, upshiftHeadroomWatts, downshiftMarginWatts,
                  mismatchRetrySeconds, mismatchLockoutCount, mismatchLockoutSeconds, preferLowestPhaseWhenIdle)
    }

    constructor (v: PhaseValues)
      ensures Value() == v
    {
      enabled, preferLowestPhaseWhenIdle := v.enabled, v.preferLowest;
      upshiftDelaySeconds, downshiftDelaySeconds := v.upshiftDelay, v.downshiftDelay;
      upshiftHeadroomWatts, downshiftMarginWatts := v.upshiftHeadroom, v.downshiftMargin;
      mismatchRetrySeconds, mismatchLockoutCount := v.mismatchRetry, v.lockoutCount;
      mismatchLockoutSeconds := v.lockoutSeconds;
    }

    method Clamp()
      modifies this
      ensures Value() == ClampPhase(old(Value()))
    {
      upshiftDelaySeconds := NonNegative(upshiftDelaySeconds);
      downshiftDelaySeconds := NonNegative(downshiftDelaySeconds);
      upshiftHeadroomWatts := NonNegative(upshiftHeadroomWatts);
      downshiftMarginWatts := NonNegative(downshiftMarginWatts);
      mismatchRetrySeconds := NonNegative(mismatchRetrySeconds);
      mismatchLockoutCount := if mismatchLockoutCount >= 0 then mismatchLockoutCount else 0;
      mismatchLockoutSeconds := NonNegative(mismatchLockoutSeconds);
    }
  }

  class AutoPolicy {
    const normalProfile: AutoThresholdProfile
    const highSocProfile: AutoThresholdProfile
    const ewma: AutoStopEwmaPolicy
    const learnChargePower: AutoLearnChargePowerPolicy
    const phase: AutoPhasePolicy
    var highSocThreshold: real
    var highSocReleaseThreshold: real
    var minSoc: real
    var resumeSoc: real
    var evPrioritySoc: real
    var evPriorityReleaseSoc: real
    var startMaxGridImportWatts: real
    var stopGridImportWatts: real
    var gridRecoveryStartSeconds: real
    var stopSurplusDelaySeconds: real

    ghost const Repr: set<object> := {this, normalProfile, highSocProfile, ewma, learnChargePower, phase}

    /** The two threshold profiles are separate objects. */
    ghost predicate Valid() {
      normalProfile != highSocProfile
    }

    ghost function Value(): PolicyValues
      reads this, normalProfile, highSocProfile, ewma, learnChargePower, phase
    {
      PolicyValues(normalProfile.Value(), highSocProfile.Value(), highSocThreshold, highSocReleaseThreshold,
                   minSoc, resumeSoc, evPrioritySoc, evPriorityReleaseSoc,
                   startMaxGridImportWatts, stopGridImportWatts, gridRecoveryStartSeconds, stopSurplusDelaySeconds,
                   ewma.Value(), learnChargePower.Value(), phase.Value())
    }

    constructor (v: PolicyValues)
      ensures Valid() && Value() == v && fresh(Repr)
    {
      var np := new AutoThresholdProfile(v.normal.start, v.normal.stop);
      var hp := new AutoThresholdProfile(v.highSoc.start, v.highSoc.stop);
      var ew := new AutoStopEwmaPolicy(v.ewma);
      var le := new AutoLearnChargePowerPolicy(v.learn);
      var ph := new AutoPhasePolicy(v.phase);
      normalProfile, highSocProfile, ewma, learnChargePower, phase := np, hp, ew, le, ph;
      highSocThreshold, highSocReleaseThreshold := v.highSocThreshold, v.highSocRelease;
      minSoc, resumeSoc := v.minSoc, v.resumeSoc;
      evPrioritySoc, evPriorityReleaseSoc := v.evPrioritySoc, v.evPriorityRelease;
      startMaxGridImportWatts, stopGridImportWatts := v.startMaxImport, v.stopImport;
      gridRecoveryStartSeconds, stopSurplusDelaySeconds := v.gridRecovery, v.stopSurplusDelay;
    }

    /** Clamp invalid values while keeping the ordering relationships intact. */
    method Clamp()
      requires Valid()
      modifies this, normalProfile, highSocProfile, ewma, learnChargePower, phase
      ensures Value() == ClampValues(old(Value()))
      ensures InRange(Value())
    {
      ghost var before := Value();
      ClampScalars();
      normalProfile.Clamp();
      highSocProfile.Clamp();
      ewma.Clamp();
      learnChargePower.Clamp();
      phase.Clamp();
      ClampFixes(before);
    }

    /** The part of the clamp that only touches the policy's own fields. */
    method ClampScalars()
      modifies this
      ensures minSoc == Percentage(old(minSoc)) && resumeSoc == Max(Percentage(old(resumeSoc)), minSoc)
      ensures evPrioritySoc == Percentage(old(evPrioritySoc))
      ensures evPriorityReleaseSoc == Min(Percentage(old(evPriorityReleaseSoc)), evPrioritySoc)
      ensures highSocThreshold == Percentage(old(highSocThreshold))
      ensures highSocReleaseThreshold == Min(Percentage(old(highSocReleaseThreshold)), highSocThreshold)
      ensures gridRecoveryStartSeconds == NonNegative(old(gridRecoveryStartSeconds))
      ensures stopSurplusDelaySeconds == NonNegative(old(stopSurplusDelaySeconds))
      ensures startMaxGridImportWatts == old(startMaxGridImportWatts)
      ensures stopGridImportWatts == old(stopGridImportWatts)
    {
      minSoc := Percentage(minSoc);
      resumeSoc := Percentage(resumeSoc);
      evPrioritySoc := Percentage(evPrioritySoc);
      evPriorityReleaseSoc := Percentage(evPriorityReleaseSoc);
      highSocThreshold := Percentage(highSocThreshold);
      highSocReleaseThreshold := Percentage(highSocReleaseThreshold);
      if highSocReleaseThreshold > highSocThreshold {
        highSocReleaseThreshold := highSocThreshold;
      }
      if resumeSoc < minSoc {
        resumeSoc := minSoc;
      }
      if evPriorityReleaseSoc > evPrioritySoc {
        evPriorityReleaseSoc := evPrioritySoc;
      }
      gridRecoveryStartSeconds := NonNegative(gridRecoveryStartSeconds);
      stopSurplusDelaySeconds := NonNegative(stopSurplusDelaySeconds);
    }
  }

  // ---- Threshold profile and smoothing choices ----

  /** Whether the high-SOC profile is active, with hysteresis around the release threshold. */
  function HighSocActive(p: PolicyValues, soc: real, wasActive: Option<bool>): bool {
    if wasActive.Some? && wasActive.value then soc >= p.highSocRelease else soc > p.highSocThreshold
  }

  function ActiveProfile(p: PolicyValues, highSoc: bool): ProfileValues {
    if highSoc then p.highSoc else p.normal
  }

  /** EV-priority bit after one SOC sample. */
  function EvPriorityActive(p: PolicyValues, soc: real, wasActive: bool): bool {
    if wasActive then !(soc < p.evPriorityRelease) else soc >= p.evPrioritySoc
  }
}
