/** The runtime-writable settings of the Auto policy and the replay of a saved snapshot. */
module PolicySettings {
  import opened Common
  import opened Policy

  datatype Setting =
    | StartSurplusWatts
    | StopSurplusWatts
    | MinSoc
    | ResumeSoc
    | GridRecoveryStartSeconds
    | StopSurplusDelaySeconds
    | VolatilityLowWatts
    | VolatilityHighWatts
    | ReferenceChargePowerWatts
    | LearnChargePowerEnabled
    | LearnMinWatts
    | LearnAlpha
    | LearnStartDelaySeconds
    | LearnWindowSeconds
    | LearnMaxAgeSeconds
    | PhaseSwitching
    | PhasePreferLowestWhenIdle
    | PhaseUpshiftDelaySeconds
    | PhaseDownshiftDelaySeconds
    | PhaseUpshiftHeadroomWatts
    | PhaseDownshiftMarginWatts
    | PhaseMismatchRetrySeconds
    | PhaseMismatchLockoutCount
    | PhaseMismatchLockoutSeconds

  /** AUTO_POLICY_SETTINGS in the order in which a snapshot lists them. */
  const AUTO_POLICY_SETTINGS: seq<Setting> := [
    StartSurplusWatts, StopSurplusWatts, MinSoc, ResumeSoc,
    GridRecoveryStartSeconds, StopSurplusDelaySeconds, VolatilityLowWatts, VolatilityHighWatts,
    ReferenceChargePowerWatts, LearnChargePowerEnabled, LearnMinWatts, LearnAlpha,
    LearnStartDelaySeconds, LearnWindowSeconds, LearnMaxAgeSeconds, PhaseSwitching,
    PhasePreferLowestWhenIdle, PhaseUpshiftDelaySeconds, PhaseDownshiftDelaySeconds, PhaseUpshiftHeadroomWatts,
    PhaseDownshiftMarginWatts, PhaseMismatchRetrySeconds, PhaseMismatchLockoutCount, PhaseMismatchLockoutSeconds
  ]

  /** A scalar as it crosses the settings boundary; Other is anything that is not a scalar. */
  datatype Scalar = BoolScalar(b: bool) | IntScalar(i: int) | RealScalar(r: real) | Other

  /** Python's int(): truncation toward zero. */
  function Truncate(r: real): int {
    if r >= 0.0 then r.Floor else -(-r).Floor
  }

  function AsInt(x: Scalar): int {
    match x
    case BoolScalar(b) => if b then 1 else 0
    case IntScalar(i) => i
    case RealScalar(r) => Truncate(r)
    case Other => 0
  }

  function AsReal(x: Scalar): real {
    if x.RealScalar? then x.r else AsInt(x) as real
  }

  function AsFlag(x: Scalar): bool {
    AsInt(x) > 0
  }

  function FlagScalar(b: bool): Scalar {
    IntScalar(if b then 1 else 0)
  }

  /** The outward value of one setting. */
  function Read(p: PolicyValues, s: Setting): Scalar {
    match s
    case StartSurplusWatts => RealScalar(p.normal.start)
    case StopSurplusWatts => RealScalar(p.normal.stop)
    case MinSoc => RealScalar(p.minSoc)
    case ResumeSoc => RealScalar(p.resumeSoc)
    case GridRecoveryStartSeconds => RealScalar(p.gridRecovery)
    case StopSurplusDelaySeconds => RealScalar(p.stopSurplusDelay)
    case VolatilityLowWatts => RealScalar(p.ewma.volatilityLow)
    case VolatilityHighWatts => RealScalar(p.ewma.volatilityHigh)
    case ReferenceChargePowerWatts => RealScalar(p.learn.referencePower)
    case LearnChargePowerEnabled => FlagScalar(p.learn.enabled)
    case LearnMinWatts => RealScalar(p.learn.minWatts)
    case LearnAlpha => RealScalar(p.learn.alpha)
    case LearnStartDelaySeconds => RealScalar(p.learn.startDelay)
    case LearnWindowSeconds => RealScalar(p.learn.window)
    case LearnMaxAgeSeconds => RealScalar(p.learn.maxAge)
    case PhaseSwitching => FlagScalar(p.phase.enabled)
    case PhasePreferLowestWhenIdle => FlagScalar(p.phase.preferLowest)
    case PhaseUpshiftDelaySeconds => RealScalar(p.phase.upshiftDelay)
    case PhaseDownshiftDelaySeconds => RealScalar(p.phase.downshiftDelay)
    case PhaseUpshiftHeadroomWatts => RealScalar(p.phase.upshiftHeadroom)
    case PhaseDownshiftMarginWatts => RealScalar(p.phase.downshiftMargin)
    case PhaseMismatchRetrySeconds => RealScalar(p.phase.mismatchRetry)
    case PhaseMismatchLockoutCount => IntScalar(p.phase.lockoutCount)
    case PhaseMismatchLockoutSeconds => RealScalar(p.phase.lockoutSeconds)
  }

  /** The policy with one field overwritten, before any clamp. */
  function Assigned(p: PolicyValues, s: Setting, x: Scalar): PolicyValues {
    match s
    case StartSurplusWatts => p.(normal := p.normal.(start := AsReal(x)))
    case StopSurplusWatts => p.(normal := p.normal.(stop := AsReal(x)))
    case MinSoc => p.(minSoc := AsReal(x))
    case ResumeSoc => p.(resumeSoc := AsReal(x))
    case GridRecoveryStartSeconds => p.(gridRecovery := AsReal(x))
    case StopSurplusDelaySeconds => p.(stopSurplusDelay := AsReal(x))
    case VolatilityLowWatts => p.(ewma := p.ewma.(volatilityLow := AsReal(x)))
    case VolatilityHighWatts => p.(ewma := p.ewma.(volatilityHigh := AsReal(x)))
    case ReferenceChargePowerWatts => p.(learn := p.learn.(referencePower := AsReal(x)))
    case LearnChargePowerEnabled => p.(learn := p.learn.(enabled := AsFlag(x)))
    case LearnMinWatts => p.(learn := p.learn.(minWatts := AsReal(x)))
    case LearnAlpha => p.(learn := p.learn.(alpha := AsReal(x)))
    case LearnStartDelaySeconds => p.(learn := p.learn.(startDelay := AsReal(x)))
    case LearnWindowSeconds => p.(learn := p.learn.(window := AsReal(x)))
    case LearnMaxAgeSeconds => p.(learn := p.learn.(maxAge := AsReal(x)))
    case PhaseSwitching => p.(phase := p.phase.(enabled := AsFlag(x)))
    case PhasePreferLowestWhenIdle => p.(phase := p.phase.(preferLowest := AsFlag(x)))
    case PhaseUpshiftDelaySeconds => p.(phase := p.phase.(upshiftDelay := AsReal(x)))
    case PhaseDownshiftDelaySeconds => p.(phase := p.phase.(downshiftDelay := AsReal(x)))
    case PhaseUpshiftHeadroomWatts => p.(phase := p.phase.(upshiftHeadroom := AsReal(x)))
    case PhaseDownshiftMarginWatts => p.(phase := p.phase.(downshiftMargin := AsReal(x)))
    case PhaseMismatchRetrySeconds => p.(phase := p.phase.(mismatchRetry := AsReal(x)))
    case PhaseMismatchLockoutCount => p.(phase := p.phase.(lockoutCount := AsInt(x)))
    case PhaseMismatchLockoutSeconds => p.(phase := p.phase.(lockoutSeconds := AsReal(x)))
  }

  function Write(p: PolicyValues, s: Setting, x: Scalar): PolicyValues {
    ClampValues(Assigned(p, s, x))
  }

  /** Truncation drops the fraction towards zero; a number counts as a set flag from one on. */
  lemma TruncateMeaning(r: real)
    ensures var n := AsInt(RealScalar(r));
            && (r >= 0.0 ==> n >= 0 && n as real <= r < n as real + 1.0)
            && (r <= 0.0 ==> n <= 0 && n as real - 1.0 < r <= n as real)
            && (AsFlag(RealScalar(r)) <==> r >= 1.0)
    ensures AsInt(BoolScalar(true)) == 1 && AsInt(BoolScalar(false)) == 0
    ensures AsFlag(BoolScalar(true)) && !AsFlag(BoolScalar(false))
    ensures AsReal(RealScalar(r)) == r
  {
  }

  /** Where a write ends up, through conversion and clamp: a nonnegative number in the threshold, SOC, delay or volatility
      field that the setting names. */
  lemma CoreWritesReach(p: PolicyValues, x: real)
    requires InRange(p) && x >= 0.0
    ensures Write(p, StartSurplusWatts, RealScalar(x)).normal.start == x
    ensures Write(p, StopSurplusWatts, RealScalar(x)).normal.stop == if x <= p.normal.start then x else p.normal.start
    ensures Write(p, MinSoc, RealScalar(x)).minSoc == if x <= 100.0 then x else 100.0
    ensures x <= 100.0 ==> Write(p, ResumeSoc, RealScalar(x)).resumeSoc == if x >= p.minSoc then x else p.minSoc
    ensures Write(p, GridRecoveryStartSeconds, RealScalar(x)).gridRecovery == x
    ensures Write(p, StopSurplusDelaySeconds, RealScalar(x)).stopSurplusDelay == x
    ensures Write(p, VolatilityLowWatts, RealScalar(x)).ewma.volatilityLow == x
    ensures Write(p, VolatilityHighWatts, RealScalar(x)).ewma.volatilityHigh ==
            if x >= p.ewma.volatilityLow then x else p.ewma.volatilityLow
  {
  }

  /** In the learning fields: the field that a setting names. */
  predicate LearningHolds(l: LearnValues, s: Setting, x: real) {
    match s
    case ReferenceChargePowerWatts => l.referencePower == if x > 0.0 then x else 1900.0
    case LearnChargePowerEnabled => l.enabled <==> x >= 1.0
    case LearnMinWatts => l.minWatts == x
    case LearnAlpha => l.alpha == if 0.0 < x <= 1.0 then x else 0.2
    case LearnStartDelaySeconds => l.startDelay == x
    case LearnWindowSeconds => l.window == x
    case LearnMaxAgeSeconds => l.maxAge == x
    case _ => true
  }

  lemma LearningWritesReach(p: PolicyValues, s: Setting, x: real)
    requires x >= 0.0
    ensures LearningHolds(Write(p, s, RealScalar(x)).learn, s, x)
  {
    var a := Assigned(p, s, RealScalar(x));
    assert ClampValues(a).learn == ClampLearn(a.learn);
  }

  /** In the phase fields. */
  predicate PhaseHolds(h: PhaseValues, s: Setting, x: real) {
    match s
    case PhaseSwitching => h.enabled <==> x >= 1.0
    case PhasePreferLowestWhenIdle => h.preferLowest <==> x >= 1.0
    case PhaseUpshiftDelaySeconds => h.upshiftDelay == x
    case PhaseDownshiftDelaySeconds => h.downshiftDelay == x
    case PhaseUpshiftHeadroomWatts => h.upshiftHeadroom == x
    case PhaseDownshiftMarginWatts => h.downshiftMargin == x
    case PhaseMismatchRetrySeconds => h.mismatchRetry == x
    case PhaseMismatchLockoutCount => h.lockoutCount == x.Floor
    case PhaseMismatchLockoutSeconds => h.lockoutSeconds == x
    case _ => true
  }

  lemma PhaseWritesReach(p: PolicyValues, s: Setting, x: real)
    requires x >= 0.0
    ensures PhaseHolds(Write(p, s, RealScalar(x)).phase, s, x)
  {
    var a := Assigned(p, s, RealScalar(x));
    assert ClampValues(a).phase == ClampPhase(a.phase);
  }

  predicate OfLearning(s: Setting) {
    || s.ReferenceChargePowerWatts? || s.LearnChargePowerEnabled? || s.LearnMinWatts? || s.LearnAlpha?
    || s.LearnStartDelaySeconds? || s.LearnWindowSeconds? || s.LearnMaxAgeSeconds?
  }

  predicate OfPhase(s: Setting) {
    || s.PhaseSwitching? || s.PhasePreferLowestWhenIdle? || s.PhaseUpshiftDelaySeconds? || s.PhaseDownshiftDelaySeconds?
    || s.PhaseUpshiftHeadroomWatts? || s.PhaseDownshiftMarginWatts? || s.PhaseMismatchRetrySeconds?
    || s.PhaseMismatchLockoutCount? || s.PhaseMismatchLockoutSeconds?
  }

  method Assign(policy: AutoPolicy, s: Setting, x: Scalar)
    requires policy.Valid()
    modifies policy, policy.normalProfile, policy.ewma, policy.learnChargePower, policy.phase
    ensures policy.Value() == Assigned(old(policy.Value()), s, x)
  {
    if OfLearning(s) {
      AssignLearning(policy, s, x);
    } else if OfPhase(s) {
      AssignPhase(policy, s, x);
    } else {
      AssignCore(policy, s, x);
    }
  }

  method AssignCore(policy: AutoPolicy, s: Setting, x: Scalar)
    requires policy.Valid() && !OfLearning(s) && !OfPhase(s)
    modifies policy, policy.normalProfile, policy.ewma
    ensures policy.Value() == Assigned(old(policy.Value()), s, x)
  {
    match s
    case StartSurplusWatts => policy.normalProfile.startSurplusWatts := AsReal(x);
    case StopSurplusWatts => policy.normalProfile.stopSurplusWatts := AsReal(x);
    case MinSoc => policy.minSoc := AsReal(x);
    case ResumeSoc => policy.resumeSoc := AsReal(x);
    case GridRecoveryStartSeconds => policy.gridRecoveryStartSeconds := AsReal(x);
    case StopSurplusDelaySeconds => policy.stopSurplusDelaySeconds := AsReal(x);
    case VolatilityLowWatts => policy.ewma.volatilityLowWatts := AsReal(x);
    case VolatilityHighWatts => policy.ewma.volatilityHighWatts := AsReal(x);
    case _ => assert false;
  }

  method AssignLearning(policy: AutoPolicy, s: Setting, x: Scalar)
    requires policy.Valid() && OfLearning(s)
    modifies policy.learnChargePower
    ensures policy.Value() == Assigned(old(policy.Value()), s, x)
  {
    match s
    case ReferenceChargePowerWatts => policy.learnChargePower.referencePowerWatts := AsReal(x);
    case LearnChargePowerEnabled => policy.learnChargePower.enabled := AsFlag(x);
    case LearnMinWatts => policy.learnChargePower.minWatts := AsReal(x);
    case LearnAlpha => policy.learnChargePower.alpha := AsReal(x);
    case LearnStartDelaySeconds => policy.learnChargePower.startDelaySeconds := AsReal(x);
    case LearnWindowSeconds => policy.learnChargePower.windowSeconds := AsReal(x);
    case LearnMaxAgeSeconds => policy.learnChargePower.maxAgeSeconds := AsReal(x);
    case _ => assert false;
  }

  method AssignPhase(policy: AutoPolicy, s: Setting, x: Scalar)
    requires policy.Valid() && OfPhase(s)
    modifies policy.phase
    ensures policy.Value() == Assigned(old(policy.Value()), s, x)
  {
    match s
    case PhaseSwitching => policy.phase.enabled := AsFlag(x);
    case PhasePreferLowestWhenIdle => policy.phase.preferLowestPhaseWhenIdle := AsFlag(x);
    case PhaseUpshiftDelaySeconds => policy.phase.upshiftDelaySeconds := AsReal(x);
    case PhaseDownshiftDelaySeconds => policy.phase.downshiftDelaySeconds := AsReal(x);
    case PhaseUpshiftHeadroomWatts => policy.phase.upshiftHeadroomWatts := AsReal(x);
    case PhaseDownshiftMarginWatts => policy.phase.downshiftMarginWatts := AsReal(x);
    case PhaseMismatchRetrySeconds => policy.phase.mismatchRetrySeconds := AsReal(x);
    case PhaseMismatchLockoutCount => policy.phase.mismatchLockoutCount := AsInt(x);
    case PhaseMismatchLockoutSeconds => policy.phase.mismatchLockoutSeconds := AsReal(x);
    case _ => assert false;
  }

  /** A raw value as it is written: a scalar, or text with what int() and float() make of it. */
  datatype RawValue = Plain(x: Scalar) | Text(asInt: Option<int>, asReal: Option<real>)

  /** Flags and counts are read with int(), everything else with float(). */
  predicate IsWhole(s: Setting) {
    || s.LearnChargePowerEnabled? || s.PhaseSwitching? || s.PhasePreferLowestWhenIdle?
    || s.PhaseMismatchLockoutCount?
  }

  /** The scalar that a write stores, unless it is none or its text cannot be parsed. */
  function Parsed(s: Setting, raw: RawValue): Result<Scalar, string> {
    match raw
    case Plain(x) => if x.Other? then Err("not a scalar") else Ok(x)
    case Text(asInt, asReal) =>
      if IsWhole(s) then (if asInt.Some? then Ok(IntScalar(asInt.value)) else Err("not an integer"))
      else if asReal.Some? then Ok(RealScalar(asReal.value))
      else Err("not a number")
  }

  /** What is stored: any scalar as it is, a text as the integer it names for flags and the lockout count and as the number
      it names for every other setting; nothing else is accepted. */
  lemma ParsedMeaning(s: Setting, raw: RawValue, x: Scalar)
    ensures Parsed(s, raw) == Ok(x) <==>
            match raw
            case Plain(y) => y == x && !x.Other?
            case Text(asInt, asReal) =>
              if s in {LearnChargePowerEnabled, PhaseSwitching, PhasePreferLowestWhenIdle, PhaseMismatchLockoutCount}
              then asInt.Some? && x == IntScalar(asInt.value)
              else asReal.Some? && x == RealScalar(asReal.value)
  {
  }

  /** One external write: a non-scalar or a text that cannot be parsed is refused and changes nothing; anything else is
      stored and the policy clamped. */
  method Update(policy: AutoPolicy, s: Setting, raw: RawValue) returns (r: Result<Scalar, string>)
    requires policy.Valid()
    modifies policy, policy.normalProfile, policy.highSocProfile, policy.ewma, policy.learnChargePower, policy.phase
    ensures r.Err? <==> Parsed(s, raw).Err?
    ensures r.Err? ==> policy.Value() == old(policy.Value())
    ensures r.Ok? ==>
              policy.Value() == Write(old(policy.Value()), s, Parsed(s, raw).value) && InRange(policy.Value())
    ensures r.Ok? ==> r.value == Read(policy.Value(), s)
  {
    var parsed := Parsed(s, raw);
    if parsed.Err? {
      return parsed;
    }
    Assign(policy, s, parsed.value);
    policy.Clamp();
    r := Ok(CurrentValue(policy, s));
  }

  function CurrentValue(policy: AutoPolicy, s: Setting): (r: Scalar)
    reads policy, policy.normalProfile, policy.ewma, policy.learnChargePower, policy.phase
  {
    match s
    case StartSurplusWatts => RealScalar(policy.normalProfile.startSurplusWatts)
    case StopSurplusWatts => RealScalar(policy.normalProfile.stopSurplusWatts)
    case MinSoc => RealScalar(policy.minSoc)
    case ResumeSoc => RealScalar(policy.resumeSoc)
    case GridRecoveryStartSeconds => RealScalar(policy.gridRecoveryStartSeconds)
    case StopSurplusDelaySeconds => RealScalar(policy.stopSurplusDelaySeconds)
    case VolatilityLowWatts => RealScalar(policy.ewma.volatilityLowWatts)
    case VolatilityHighWatts => RealScalar(policy.ewma.volatilityHighWatts)
    case ReferenceChargePowerWatts => RealScalar(policy.learnChargePower.referencePowerWatts)
    case LearnChargePowerEnabled => FlagScalar(policy.learnChargePower.enabled)
    case LearnMinWatts => RealScalar(policy.learnChargePower.minWatts)
    case LearnAlpha => RealScalar(policy.learnChargePower.alpha)
    case LearnStartDelaySeconds => RealScalar(policy.learnChargePower.startDelaySeconds)
    case LearnWindowSeconds => RealScalar(policy.learnChargePower.windowSeconds)
    case LearnMaxAgeSeconds => RealScalar(policy.learnChargePower.maxAgeSeconds)
    case PhaseSwitching => FlagScalar(policy.phase.enabled)
    case PhasePreferLowestWhenIdle => FlagScalar(policy.phase.preferLowestPhaseWhenIdle)
    case PhaseUpshiftDelaySeconds => RealScalar(policy.phase.upshiftDelaySeconds)
    case PhaseDownshiftDelaySeconds => RealScalar(policy.phase.downshiftDelaySeconds)
    case PhaseUpshiftHeadroomWatts => RealScalar(policy.phase.upshiftHeadroomWatts)
    case PhaseDownshiftMarginWatts => RealScalar(policy.phase.downshiftMarginWatts)
    case PhaseMismatchRetrySeconds => RealScalar(policy.phase.mismatchRetrySeconds)
    case PhaseMismatchLockoutCount => IntScalar(policy.phase.mismatchLockoutCount)
    case PhaseMismatchLockoutSeconds => RealScalar(policy.phase.mismatchLockoutSeconds)
  }

  // ---- Replaying a snapshot ----

  /** The setting whose value bounds another one in the clamp. */
  function Leader(s: Setting): Option<Setting> {
    match s
    case StopSurplusWatts => Some(StartSurplusWatts)
    case ResumeSoc => Some(MinSoc)
    case VolatilityHighWatts => Some(VolatilityLowWatts)
    case _ => None
  }

  /** Writes p's value of every listed setting into q, in order, with a clamp after each write. */
  function Replay(order: seq<Setting>, p: PolicyValues, q: PolicyValues): PolicyValues {
    if order == [] then q
    else
      var n := |order| - 1;
      Write(Replay(order[..n], p, q), order[n], Read(p, order[n]))
  }

  /** The fields of the policy that no setting reaches. */
  predicate SameOthers(a: PolicyValues, b: PolicyValues) {
    && a.highSoc == b.highSoc
    && a.highSocThreshold == b.highSocThreshold && a.highSocRelease == b.highSocRelease
    && a.evPrioritySoc == b.evPrioritySoc && a.evPriorityRelease == b.evPriorityRelease
    && a.startMaxImport == b.startMaxImport && a.stopImport == b.stopImport
    && a.ewma.baseAlpha == b.ewma.baseAlpha && a.ewma.stableAlpha == b.ewma.stableAlpha
    && a.ewma.volatileAlpha == b.ewma.volatileAlpha
  }

  ghost predicate SameSettings(a: PolicyValues, b: PolicyValues) {
    forall s: Setting :: Read(a, s) == Read(b, s)
  }

  /** The setting is written, and if it has a leader then once after its leader. */
  ghost predicate Settled(order: seq<Setting>, s: Setting) {
    if Leader(s).None? then s in order
    else exists i, j :: 0 <= i < j < |order| && order[i] == Leader(s).value && order[j] == s
  }

  ghost predicate Admissible(order: seq<Setting>) {
    forall s: Setting :: Settled(order, s)
  }

  lemma AssignedHere(v: PolicyValues, p: PolicyValues, x: Setting)
    ensures Read(Assigned(v, x, Read(p, x)), x) == Read(p, x)
    ensures SameOthers(Assigned(v, x, Read(p, x)), v)
  {
    match x { case _ => }
  }

  /** A clamp keeps every value that some clamped policy holds together with the same bound. */
  lemma ClampKeeps(a: PolicyValues, v: PolicyValues, s: Setting)
    requires InRange(v) && Read(a, s) == Read(v, s)
    requires Leader(s).Some? ==> Read(a, Leader(s).value) == Read(v, Leader(s).value)
    ensures Read(ClampValues(a), s) == Read(v, s)
  {
    match s { case _ => }
  }

  lemma ClampKeepsOthers(a: PolicyValues, v: PolicyValues)
    requires InRange(v) && SameOthers(a, v)
    ensures SameOthers(ClampValues(a), v)
  {
  }

  lemma WriteTarget(v: PolicyValues, p: PolicyValues, x: Setting)
    requires InRange(v) && InRange(p)
    ensures var w := Write(v, x, Read(p, x));
            InRange(w) && SameOthers(w, v)
    ensures var w := Write(v, x, Read(p, x));
            Leader(x).None? || Read(v, Leader(x).value) == Read(p, Leader(x).value) ==> Read(w, x) == Read(p, x)
  {
    var a := Assigned(v, x, Read(p, x));
    ClampFixes(a);
    AssignedHere(v, p, x);
    ClampKeepsOthers(a, v);
    if Leader(x).None? {
      ClampKeeps(a, p, x);
    } else if Read(v, Leader(x).value) == Read(p, Leader(x).value) {
      AssignedElsewhere(v, x, Read(p, x), Leader(x).value);
      ClampKeeps(a, p, x);
    }
  }

  lemma WriteOthers(v: PolicyValues, p: PolicyValues, x: Setting, s: Setting)
    requires InRange(v) && InRange(p) && s != x
    ensures var w := Write(v, x, Read(p, x));
            Leader(s) != Some(x) || Read(v, s) == Read(p, s) ==> Read(w, s) == Read(v, s)
  {
    var a := Assigned(v, x, Read(p, x));
    AssignedElsewhere(v, x, Read(p, x), s);
    if Leader(s) == Some(x) {
      AssignedHere(v, p, x);
      if Read(v, s) == Read(p, s) {
        ClampKeeps(a, p, s);
      }
    } else {
      if Leader(s).Some? {
        AssignedElsewhere(v, x, Read(p, x), Leader(s).value);
      }
      ClampKeeps(a, v, s);
    }
  }

  lemma {:induction false} SettledStep(order: seq<Setting>, s: Setting)
    requires order != []
    ensures var n := |order| - 1;
            Settled(order, s) <==>
            (Settled(order[..n], s) || (order[n] == s && (Leader(s).None? || Leader(s).value in order[..n])))
  {
    var n := |order| - 1;
    assert order == order[..n] + [order[n]];
    if Leader(s).Some? {
      if Settled(order, s) {
        var i, j :| 0 <= i < j < |order| && order[i] == Leader(s).value && order[j] == s;
        if j < n {
          assert order[..n][i] == Leader(s).value && order[..n][j] == s;
        } else {
          assert order[..n][i] == Leader(s).value;
        }
      }
      if Settled(order[..n], s) {
        var i, j :| 0 <= i < j < n && order[..n][i] == Leader(s).value && order[..n][j] == s;
        assert order[i] == Leader(s).value && order[j] == s;
      } else if order[n] == s && Leader(s).value in order[..n] {
        var i :| 0 <= i < n && order[..n][i] == Leader(s).value;
        assert order[i] == Leader(s).value && order[n] == s;
      }
    }
  }

  /** After any prefix, every settled setting already has its final value and no other field moved. */
  lemma {:induction false} ReplayInvariant(order: seq<Setting>, p: PolicyValues, q: PolicyValues)
    requires InRange(p) && InRange(q)
    ensures var v := Replay(order, p, q);
            InRange(v) && SameOthers(v, q) && forall s: Setting :: Settled(order, s) ==> Read(v, s) == Read(p, s)
  {
    if order == [] {
      assert forall s: Setting :: !Settled(order, s);
    } else {
      var n := |order| - 1;
      var x := order[n];
      var v := Replay(order[..n], p, q);
      ReplayInvariant(order[..n], p, q);
      WriteTarget(v, p, x);
      forall s: Setting | Settled(order, s)
        ensures Read(Write(v, x, Read(p, x)), s) == Read(p, s)
      {
        SettledStep(order, s);
        if Leader(s).Some? {
          LeaderSettled(order[..n], s);
        }
        if s != x {
          WriteOthers(v, p, x, s);
        }
      }
    }
  }

  lemma LeaderSettled(order: seq<Setting>, s: Setting)
    requires Leader(s).Some?
    ensures Leader(Leader(s).value).None?
    ensures Settled(order, s) ==> Leader(s).value in order
    ensures Leader(s).value in order ==> Settled(order, Leader(s).value)
  {
  }

  /** Replaying p in an admissible order copies every setting and touches nothing else. */
  lemma ReplayRestores(order: seq<Setting>, p: PolicyValues, q: PolicyValues)
    requires InRange(p) && InRange(q) && Admissible(order)
    ensures SameSettings(Replay(order, p, q), p)
    ensures SameOthers(Replay(order, p, q), q)
  {
    ReplayInvariant(order, p, q);
  }

  lemma ShippedOrderAdmissible()
    ensures Admissible(AUTO_POLICY_SETTINGS)
  {
    forall s: Setting
      ensures Settled(AUTO_POLICY_SETTINGS, s)
    {
      ShippedOrderSettles(s);
    }
  }

  lemma ShippedOrderSettles(s: Setting)
    ensures Settled(AUTO_POLICY_SETTINGS, s)
  {
    var order := AUTO_POLICY_SETTINGS;
    match s
    case StopSurplusWatts => assert order[0] == StartSurplusWatts && order[1] == StopSurplusWatts;
    case ResumeSoc => assert order[2] == MinSoc && order[3] == ResumeSoc;
    case VolatilityHighWatts => assert order[6] == VolatilityLowWatts && order[7] == VolatilityHighWatts;
    case _ => ShippedOrderComplete(s);
  }

  /** The shipped order is admissible, so a snapshot can always be replayed in it. */
  lemma ShippedOrderRestores(p: PolicyValues, q: PolicyValues)
    requires InRange(p) && InRange(q)
    ensures SameSettings(Replay(AUTO_POLICY_SETTINGS, p, q), p)
    ensures SameOthers(Replay(AUTO_POLICY_SETTINGS, p, q), q)
  {
    ShippedOrderAdmissible();
    ReplayRestores(AUTO_POLICY_SETTINGS, p, q);
  }

  lemma ShippedOrderComplete(s: Setting)
    ensures s in AUTO_POLICY_SETTINGS
  {
    match s
    case StartSurplusWatts => assert AUTO_POLICY_SETTINGS[0] == s;
    case StopSurplusWatts => assert AUTO_POLICY_SETTINGS[1] == s;
    case MinSoc => assert AUTO_POLICY_SETTINGS[2] == s;
    case ResumeSoc => assert AUTO_POLICY_SETTINGS[3] == s;
    case GridRecoveryStartSeconds => assert AUTO_POLICY_SETTINGS[4] == s;
    case StopSurplusDelaySeconds => assert AUTO_POLICY_SETTINGS[5] == s;
    case VolatilityLowWatts => assert AUTO_POLICY_SETTINGS[6] == s;
    case VolatilityHighWatts => assert AUTO_POLICY_SETTINGS[7] == s;
    case ReferenceChargePowerWatts => assert AUTO_POLICY_SETTINGS[8] == s;
    case LearnChargePowerEnabled => assert AUTO_POLICY_SETTINGS[9] == s;
    case LearnMinWatts => assert AUTO_POLICY_SETTINGS[10] == s;
    case LearnAlpha => assert AUTO_POLICY_SETTINGS[11] == s;
    case LearnStartDelaySeconds => assert AUTO_POLICY_SETTINGS[12] == s;
    case LearnWindowSeconds => assert AUTO_POLICY_SETTINGS[13] == s;
    case LearnMaxAgeSeconds => assert AUTO_POLICY_SETTINGS[14] == s;
    case PhaseSwitching => assert AUTO_POLICY_SETTINGS[15] == s;
    case PhasePreferLowestWhenIdle => assert AUTO_POLICY_SETTINGS[16] == s;
    case PhaseUpshiftDelaySeconds => assert AUTO_POLICY_SETTINGS[17] == s;
    case PhaseDownshiftDelaySeconds => assert AUTO_POLICY_SETTINGS[18] == s;
    case PhaseUpshiftHeadroomWatts => assert AUTO_POLICY_SETTINGS[19] == s;
    case PhaseDownshiftMarginWatts => assert AUTO_POLICY_SETTINGS[20] == s;
    case PhaseMismatchRetrySeconds => assert AUTO_POLICY_SETTINGS[21] == s;
    case PhaseMismatchLockoutCount => assert AUTO_POLICY_SETTINGS[22] == s;
    case PhaseMismatchLockoutSeconds => assert AUTO_POLICY_SETTINGS[23] == s;
  }

  // ---- Which replay orders work ----

  const BASE_LEARN := LearnValues(false, 1.0, 1.0, 0.5, 1.0, 1.0, 1.0)
  const BASE_PHASE := PhaseValues(false, 1.0, 1.0, 1.0, 1.0, 1.0, 1, 1.0, false)

  /** A clamped policy given by its three leader/follower pairs. */
  function Sketch(start: real, stop: real, minSoc: real, resume: real, low: real, high: real): PolicyValues {
    PolicyValues(ProfileValues(start, stop), ProfileValues(1.0, 1.0), 1.0, 1.0, minSoc, resume, 1.0, 1.0, 1.0, 1.0,
                 1.0, 1.0, EwmaValues(0.5, 0.5, 0.5, low, high), BASE_LEARN, BASE_PHASE)
  }

  const BASE := Sketch(3.0, 1.0, 10.0, 20.0, 1.0, 3.0)
  const SOURCE := Sketch(3.0, 2.0, 10.0, 20.0, 1.0, 2.0)
  const TARGET := Sketch(1.0, 1.0, 30.0, 30.0, 3.0, 3.0)

  /** A different, still valid, value for one setting of BASE that has no leader. */
  function TweakValue(s: Setting): Scalar {
    match s
    case StartSurplusWatts => RealScalar(4.0)
    case MinSoc => RealScalar(11.0)
    case PhaseMismatchLockoutCount => IntScalar(2)
    case LearnChargePowerEnabled => IntScalar(1)
    case PhaseSwitching => IntScalar(1)
    case PhasePreferLowestWhenIdle => IntScalar(1)
    case _ => RealScalar(0.75)
  }

  function Tweaked(s: Setting): PolicyValues {
    Assigned(BASE, s, TweakValue(s))
  }

  lemma AssignedItself(p: PolicyValues, s: Setting)
    ensures Assigned(p, s, Read(p, s)) == p
  {
    match s { case _ => }
  }

  lemma AssignedElsewhere(p: PolicyValues, s: Setting, x: Scalar, u: Setting)
    requires u != s
    ensures Read(Assigned(p, s, x), u) == Read(p, u)
  {
    match s { case _ => }
  }

  lemma {:induction false} EqualWritesDoNothing(order: seq<Setting>, p: PolicyValues, q: PolicyValues)
    requires InRange(q)
    requires forall x :: x in order ==> Read(p, x) == Read(q, x)
    ensures Replay(order, p, q) == q
  {
    if order != [] {
      var n := |order| - 1;
      EqualWritesDoNothing(order[..n], p, q);
      AssignedItself(q, order[n]);
      ClampFixes(q);
    }
  }

  predicate Lost(v: PolicyValues, s: Setting) {
    match s
    case StopSurplusWatts => v.normal.stop <= 1.0
    case ResumeSoc => v.resumeSoc >= 30.0
    case _ => v.ewma.volatilityHigh >= 3.0
  }

  /** A lost value stays lost, unless its setting is written while the bound is no longer TARGET's. */
  lemma LostStep(v: PolicyValues, x: Setting, s: Setting)
    requires Leader(s).Some? && InRange(v) && Lost(v, s)
    requires x == s ==> Read(v, Leader(s).value) == Read(TARGET, Leader(s).value)
    ensures Lost(Write(v, x, Read(SOURCE, x)), s)
  {
    if x == s {
      match s { case _ => }
    } else if Leader(s) == Some(x) {
      match x { case _ => }
    } else {
      WriteOthers(v, SOURCE, x, s);
    }
  }

  /** A follower that is never written after its leader keeps a value its source did not have. */
  lemma {:induction false} UnsettledFollowerIsLost(order: seq<Setting>, s: Setting)
    requires Leader(s).Some? && !Settled(order, s)
    ensures var v := Replay(order, SOURCE, TARGET);
            Lost(v, s) && InRange(v) &&
            (Leader(s).value !in order ==> Read(v, Leader(s).value) == Read(TARGET, Leader(s).value))
  {
    if order != [] {
      var n := |order| - 1;
      var x := order[n];
      var v := Replay(order[..n], SOURCE, TARGET);
      SettledStep(order, s);
      UnsettledFollowerIsLost(order[..n], s);
      WriteTarget(v, SOURCE, x);
      LostStep(v, x, s);
      if x != Leader(s).value {
        WriteOthers(v, SOURCE, x, Leader(s).value);
      }
    } else {
      match s { case _ => }
    }
  }

  lemma UnsettledLosesSetting(order: seq<Setting>, s: Setting)
    requires !Settled(order, s)
    ensures exists p, q :: InRange(p) && InRange(q) && !SameSettings(Replay(order, p, q), p)
  {
    if Leader(s).None? {
      var p := Tweaked(s);
      forall x | x in order
        ensures Read(p, x) == Read(BASE, x)
      {
        TweakedElsewhere(s, x);
      }
      EqualWritesDoNothing(order, p, BASE);
      TweakedElsewhere(s, s);
      assert !SameSettings(Replay(order, p, BASE), p);
      assert InRange(p) && InRange(BASE);
    } else {
      UnsettledFollowerIsLost(order, s);
      assert Read(Replay(order, SOURCE, TARGET), s) != Read(SOURCE, s);
      assert !SameSettings(Replay(order, SOURCE, TARGET), SOURCE);
      assert InRange(SOURCE) && InRange(TARGET);
    }
  }

  lemma TweakedElsewhere(s: Setting, x: Setting)
    requires Leader(s).None?
    ensures InRange(Tweaked(s))
    ensures x != s <==> Read(Tweaked(s), x) == Read(BASE, x)
  {
    TweakedHere(s);
    if x != s {
      AssignedElsewhere(BASE, s, TweakValue(s), x);
    }
  }

  lemma TweakedHere(s: Setting)
    requires Leader(s).None?
    ensures InRange(Tweaked(s)) && Read(Tweaked(s), s) != Read(BASE, s)
  {
    TweakedInRange(s);
    match s { case _ => }
  }

  lemma BaseInRange()
    ensures InRange(BASE)
  {
  }

  lemma TweakedLearning(s: Setting)
    requires OfLearning(s)
    ensures LearnInRange(Tweaked(s).learn) && Tweaked(s) == BASE.(learn := Tweaked(s).learn)
  {
    match s { case _ => }
  }

  lemma TweakedPhase(s: Setting)
    requires OfPhase(s)
    ensures PhaseInRange(Tweaked(s).phase) && Tweaked(s) == BASE.(phase := Tweaked(s).phase)
  {
    match s { case _ => }
  }

  lemma TweakedCore(s: Setting)
    requires Leader(s).None? && !OfLearning(s) && !OfPhase(s)
    ensures InRange(Tweaked(s))
  {
    match s { case _ => }
  }

  lemma TweakedInRange(s: Setting)
    requires Leader(s).None?
    ensures InRange(Tweaked(s))
  {
    BaseInRange();
    if OfLearning(s) {
      TweakedLearning(s);
    } else if OfPhase(s) {
      TweakedPhase(s);
    } else {
      TweakedCore(s);
    }
  }

  /** An order of writes restores every snapshot into every policy exactly when each setting is written
      and each bounded setting is written after its bound. */
  lemma ReplayOrderCharacterised(order: seq<Setting>)
    ensures Admissible(order) <==>
            forall p, q | InRange(p) && InRange(q) ::
              SameSettings(Replay(order, p, q), p) && SameOthers(Replay(order, p, q), q)
  {
    if Admissible(order) {
      forall p, q | InRange(p) && InRange(q)
        ensures SameSettings(Replay(order, p, q), p) && SameOthers(Replay(order, p, q), q)
      {
        ReplayRestores(order, p, q);
      }
    } else {
      var s: Setting :| !Settled(order, s);
      UnsettledLosesSetting(order, s);
    }
  }
}
