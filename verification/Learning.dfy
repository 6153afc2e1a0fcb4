/** Learned charging power and the surplus thresholds scaled with it. */
module Learning {
  import opened Common
  import opened Policy

  /** What the service remembers about the charging power it measured. */
  datatype LearnedPower = LearnedPower(watts: Option<real>, stable: bool, updatedAt: Option<real>)

  predicate Expired(l: LearnValues, learned: LearnedPower, now: real) {
    l.maxAge > 0.0 && (learned.updatedAt.None? || now - learned.updatedAt.value > l.maxAge)
  }

  /** The learned power, when it is positive, stable, enabled and not stale. */
  function ActivePower(l: LearnValues, learned: LearnedPower, now: real): (r: Option<real>)
    ensures r.Some? ==> r.value > 0.0
  {
    if l.enabled && learned.watts.Some? && learned.watts.value > 0.0 && learned.stable && !Expired(l, learned, now)
    then learned.watts else None
  }

  /** Of an enabled, stable and positive learned power, a maximum age leaves exactly the time up to that age. */
  lemma ActiveWithinAge(l: LearnValues, learned: LearnedPower, now: real)
    requires l.enabled && learned.stable && learned.watts.Some? && learned.watts.value > 0.0
    ensures ActivePower(l, learned, now) == learned.watts <==>
            l.maxAge <= 0.0 || (learned.updatedAt.Some? && now <= learned.updatedAt.value + l.maxAge)
  {
  }

  function Scale(l: LearnValues, learned: LearnedPower, now: real): (r: real)
    requires l.referencePower > 0.0
    ensures r > 0.0
  {
    var active := ActivePower(l, learned, now);
    if active.None? then 1.0 else active.value / l.referencePower
  }

  function RoundTenth(x: real): real {
    RoundHalfEven(x * 10.0) as real / 10.0
  }

  function ScaledWatts(watts: real, scale: real): real {
    RoundTenth(watts * scale)
  }

  /** Start and stop thresholds of a profile, scaled unless scaling leaves them negative or unordered. */
  function Thresholds(profile: ProfileValues, scale: real): ProfileValues {
    var start := ScaledWatts(profile.start, scale);
    var stop := ScaledWatts(profile.stop, scale);
    if start >= 0.0 && stop >= 0.0 && stop <= start then ProfileValues(start, stop) else profile
  }

  lemma RoundTenthMonotone(x: real, y: real)
    requires x <= y
    ensures RoundTenth(x) <= RoundTenth(y)
  {
    RoundMonotone(x * 10.0, y * 10.0);
  }

  lemma RoundTenthError(x: real)
    ensures -0.05 <= RoundTenth(x) - x <= 0.05
  {
    RoundError(x * 10.0);
  }

  /** For an ordered profile the thresholds in force are ordered at every learned scale, and the static fallback is
      taken exactly when the scaled stop threshold is negative. */
  lemma ThresholdsOrdered(profile: ProfileValues, scale: real)
    requires profile.stop <= profile.start && scale > 0.0
    ensures var t := Thresholds(profile, scale);
            t.stop <= t.start &&
            (t == ProfileValues(ScaledWatts(profile.start, scale), ScaledWatts(profile.stop, scale)) ||
             (t == profile && ScaledWatts(profile.stop, scale) < 0.0)) &&
            (ScaledWatts(profile.stop, scale) < 0.0 ==> t == profile)
  {
    ScaledOrdered(profile.stop, profile.start, scale);
  }

  /** Whether a learned power is in use: enabled, positive, stable and, with a maximum age, not older than that. */
  predicate InUse(l: LearnValues, learned: LearnedPower, now: real) {
    l.enabled && learned.stable && learned.watts.Some? && learned.watts.value > 0.0 &&
    (l.maxAge <= 0.0 || (learned.updatedAt.Some? && now <= learned.updatedAt.value + l.maxAge))
  }

  /** The thresholds in force in watts: whole tenths of a watt, within half a tenth of the profile scaled by the learned
      power over the reference power while a learned power is in use and of the profile itself otherwise; or exactly the
      profile, which only a negative stop threshold allows. */
  lemma ThresholdsFollowPower(l: LearnValues, learned: LearnedPower, now: real, profile: ProfileValues)
    requires l.referencePower > 0.0 && profile.stop <= profile.start
    ensures var t := Thresholds(profile, Scale(l, learned, now));
            || (t == profile && profile.stop < 0.0)
            || (InTenths(t.start) && InTenths(t.stop) &&
                if InUse(l, learned, now) then
                  CloseToScaled(t.start, profile.start, learned.watts.value, l.referencePower) &&
                  CloseToScaled(t.stop, profile.stop, learned.watts.value, l.referencePower)
                else -0.05 <= t.start - profile.start <= 0.05 && -0.05 <= t.stop - profile.stop <= 0.05)
  {
    var scale := Scale(l, learned, now);
    ThresholdsOrdered(profile, scale);
    if profile.stop >= 0.0 {
      ScaledNonNegative(profile.stop, scale);
    }
    ThresholdFollows(l, learned, now, profile.start);
    ThresholdFollows(l, learned, now, profile.stop);
  }

  lemma ThresholdFollows(l: LearnValues, learned: LearnedPower, now: real, watts: real)
    requires l.referencePower > 0.0
    ensures var x := ScaledWatts(watts, Scale(l, learned, now));
            InTenths(x) &&
            if InUse(l, learned, now) then CloseToScaled(x, watts, learned.watts.value, l.referencePower)
            else -0.05 <= x - watts <= 0.05
  {
    var scale := Scale(l, learned, now);
    ScaledMeaning(watts, scale);
    if InUse(l, learned, now) {
      QuotientMeaning(ScaledWatts(watts, scale), watts, learned.watts.value, l.referencePower);
    }
  }

  predicate InTenths(x: real) { (x * 10.0).Floor as real == x * 10.0 }

  /** Within half a tenth of watts * power / reference. */
  predicate CloseToScaled(x: real, watts: real, power: real, reference: real) {
    -0.05 * reference <= x * reference - watts * power <= 0.05 * reference
  }

  lemma ScaledMeaning(watts: real, scale: real)
    ensures InTenths(ScaledWatts(watts, scale)) && -0.05 <= ScaledWatts(watts, scale) - watts * scale <= 0.05
  {
    RoundTenthError(watts * scale);
    var n := RoundHalfEven(watts * scale * 10.0);
    assert ScaledWatts(watts, scale) * 10.0 == n as real;
  }

  lemma ScaledNonNegative(watts: real, scale: real)
    requires watts >= 0.0 && scale > 0.0
    ensures ScaledWatts(watts, scale) >= 0.0
  {
    ProductOrder(0.0, watts, scale);
    RoundTenthMonotone(0.0, watts * scale);
  }

  lemma QuotientMeaning(x: real, watts: real, power: real, reference: real)
    requires reference > 0.0 && -0.05 <= x - watts * (power / reference) <= 0.05
    ensures CloseToScaled(x, watts, power, reference)
  {
    var scaled := watts * (power / reference);
    assert scaled * reference == watts * power;
    ProductOrder(-0.05, x - scaled, reference);
    ProductOrder(x - scaled, 0.05, reference);
    assert (x - scaled) * reference == x * reference - scaled * reference;
  }

  lemma ScaledOrdered(low: real, high: real, scale: real)
    requires low <= high && scale > 0.0
    ensures ScaledWatts(low, scale) <= ScaledWatts(high, scale)
  {
    ProductOrder(low, high, scale);
    RoundTenthMonotone(low * scale, high * scale);
  }
}
