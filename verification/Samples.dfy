/** Rolling samples of the Auto controller: averages, stop-side smoothing and the daily time window. */
module Samples {
  import opened Common
  import opened Policy
  import opened TimedWindow

  datatype Reading = Reading(surplus: real, grid: real)

  type Sample = Timed<Reading>

  const MINUTES_PER_DAY := 1440

  /** PV-backed export as available charging surplus. */
  function AvailableSurplus(pv: real, grid: real): (r: real)
    ensures 0.0 <= r <= Max(0.0, pv) && r <= Max(0.0, -grid)
    ensures r == Max(0.0, pv) || r == Max(0.0, -grid)
  {
    Min(Max(0.0, pv), Max(0.0, -grid))
  }

  function Surpluses(samples: seq<Sample>): seq<real> {
    seq(|samples|, i requires 0 <= i < |samples| => samples[i].item.surplus)
  }

  function Grids(samples: seq<Sample>): seq<real> {
    seq(|samples|, i requires 0 <= i < |samples| => samples[i].item.grid)
  }

  function Square(x: real): real { x * x }

  function Mapped(f: real -> real, xs: seq<real>): seq<real> {
    seq(|xs|, i requires 0 <= i < |xs| => f(xs[i]))
  }

  /** Population variance, the square of the volatility the smoothing policy looks at. */
  function Variance(xs: seq<real>): real
    requires xs != []
  {
    Mean(Mapped(DeviationFrom(Mean(xs)), xs))
  }

  function DeviationFrom(m: real): real -> real { x => Square(x - m) }

  lemma MappedTail(f: real -> real, xs: seq<real>)
    requires xs != []
    ensures Sum(Mapped(f, xs)) == f(xs[0]) + Sum(Mapped(f, xs[1..]))
  {
    assert Mapped(f, xs)[1..] == Mapped(f, xs[1..]);
  }

  /** Summing f, which is g less a part plus a constant. */
  lemma {:induction false} SumOfParts(f: real -> real, g: real -> real, part: real -> real, c: real, xs: seq<real>)
    requires forall x {:trigger f(x)} :: f(x) == g(x) - part(x) + c
    ensures Sum(Mapped(f, xs)) == Sum(Mapped(g, xs)) - Sum(Mapped(part, xs)) + Times(|xs|, c)
  {
    if xs != [] {
      SumOfParts(f, g, part, c, xs[1..]);
      MappedTail(f, xs);
      MappedTail(g, xs);
      MappedTail(part, xs);
      TimesStep(|xs| - 1, c);
    }
  }

  function TwiceProduct(m: real, x: real): real { 2.0 * (m * x) }

  lemma TwiceProductOfSum(m: real, x: real, y: real)
    ensures TwiceProduct(m, x + y) == TwiceProduct(m, x) + TwiceProduct(m, y)
  {
  }

  lemma {:induction false} SumOfTwice(m: real, part: real -> real, xs: seq<real>)
    requires forall x :: part(x) == TwiceProduct(m, x)
    ensures Sum(Mapped(part, xs)) == TwiceProduct(m, Sum(xs))
  {
    if xs != [] {
      SumOfTwice(m, part, xs[1..]);
      MappedTail(part, xs);
      TwiceProductOfSum(m, xs[0], Sum(xs[1..]));
    }
  }

  lemma SquareOfDifference(x: real, m: real)
    ensures Square(x - m) == Square(x) - TwiceProduct(m, x) + Square(m)
  {
  }

  lemma DeviationParts(m: real, deviation: real -> real, part: real -> real)
    requires forall x :: deviation(x) == Square(x - m) && part(x) == TwiceProduct(m, x)
    ensures forall x {:trigger deviation(x)} :: deviation(x) == Square(x) - part(x) + Square(m)
  {
    forall x {:trigger deviation(x)} ensures deviation(x) == Square(x) - part(x) + Square(m) {
      SquareOfDifference(x, m);
    }
  }

  lemma DeviationSum(xs: seq<real>, m: real)
    ensures Sum(Mapped(DeviationFrom(m), xs)) ==
            Sum(Mapped(Square, xs)) - TwiceProduct(m, Sum(xs)) + Times(|xs|, Square(m))
  {
    var part := x => TwiceProduct(m, x);
    DeviationParts(m, DeviationFrom(m), part);
    SumOfTwice(m, part, xs);
    SumOfParts(DeviationFrom(m), Square, part, Square(m), xs);
  }

  /** The variance is the mean of the squares less the square of the mean. */
  lemma VarianceMeaning(xs: seq<real>)
    requires xs != []
    ensures Variance(xs) == Mean(Mapped(Square, xs)) - Square(Mean(xs))
  {
    DeviationSum(xs, Mean(xs));
    VarianceOfSums(|xs|, Sum(Mapped(DeviationFrom(Mean(xs)), xs)), Sum(Mapped(Square, xs)), Sum(xs));
  }

  lemma VarianceOfSums(count: nat, deviations: real, squares: real, sum: real)
    requires count > 0
    requires var n := count as real;
             deviations == squares - TwiceProduct(sum / n, sum) + Times(count, Square(sum / n))
    ensures var n := count as real; deviations / n == squares / n - Square(sum / n)
  {
    var n := count as real;
    var m := sum / n;
    VarianceRatio(deviations / n, squares / n, m, n, squares, sum);
  }

  lemma VarianceRatio(variance: real, meanSquare: real, m: real, n: real, squares: real, sum: real)
    requires n > 0.0 && m * n == sum && meanSquare * n == squares
    requires variance * n == squares - 2.0 * (m * sum) + n * (m * m)
    ensures variance == meanSquare - m * m
  {
    var d := variance - (meanSquare - m * m);
    calc {
      d * n;
      variance * n - meanSquare * n + m * m * n;
      2.0 * (n * (m * m)) - 2.0 * (m * (m * n));
      0.0;
    }
  }

  /** Smoothing factor for the current volatility. The comparisons with the square root of the variance
      are written on squares. */
  function AdaptiveAlpha(e: EwmaValues, samples: seq<Sample>): (alpha: real)
    ensures EwmaInRange(e) ==> IsFraction(alpha)
  {
    if |samples| < 2 then e.baseAlpha
    else
      var variance := Variance(Surpluses(samples));
      if e.volatilityLow >= 0.0 && variance <= e.volatilityLow * e.volatilityLow then e.stableAlpha
      else if e.volatilityHigh <= 0.0 || variance >= e.volatilityHigh * e.volatilityHigh then e.volatileAlpha
      else e.baseAlpha
  }

  /** The factor in terms of the volatility itself, which is the standard deviation of the sampled surplus. */
  lemma AlphaByVolatility(e: EwmaValues, samples: seq<Sample>, volatility: real)
    requires |samples| >= 2 && volatility >= 0.0 && volatility * volatility == Variance(Surpluses(samples))
    ensures AdaptiveAlpha(e, samples) ==
            if volatility <= e.volatilityLow then e.stableAlpha
            else if volatility >= e.volatilityHigh then e.volatileAlpha
            else e.baseAlpha
  {
    SquareOrder(volatility, e.volatilityLow);
    SquareOrder(volatility, e.volatilityHigh);
  }

  lemma SquareOrder(x: real, y: real)
    requires x >= 0.0
    ensures y >= 0.0 ==> (x <= y <==> x * x <= y * y)
    ensures y >= 0.0 ==> (x >= y <==> x * x >= y * y)
  {
    if y >= 0.0 {
      if x < y {
        StrictSquare(x, y);
      } else if y < x {
        StrictSquare(y, x);
      }
    }
  }

  lemma StrictSquare(x: real, y: real)
    requires 0.0 <= x < y
    ensures x * x < y * y
  {
    PositiveProduct(y - x, y + x);
    assert (y - x) * (y + x) == y * y - x * x;
  }

  /** One EWMA step; the first value is taken as it is. */
  function Smooth(previous: Option<real>, current: real, alpha: real): real {
    if previous.None? then current else previous.value + alpha * (current - previous.value)
  }

  /** An EWMA step with a fractional factor stays between its two inputs. */
  lemma SmoothBetween(previous: Option<real>, current: real, alpha: real, lo: real, hi: real)
    requires 0.0 < alpha <= 1.0
    requires lo <= current <= hi && (previous.Some? ==> lo <= previous.value <= hi)
    ensures lo <= Smooth(previous, current, alpha) <= hi
  {
    if previous.Some? {
      var p := previous.value;
      var step := Smooth(previous, current, alpha) - p;
      if p <= current {
        StepBetween(alpha, current - p, step);
      } else {
        StepBetween(alpha, p - current, -step);
      }
    }
  }

  /** n steps towards the same value. */
  function SmoothedTowards(p: real, current: real, alpha: real, n: nat): real {
    if n == 0 then p else Smooth(Some(SmoothedTowards(p, current, alpha, n - 1)), current, alpha)
  }

  function Power(x: real, n: nat): real {
    if n == 0 then 1.0 else x * Power(x, n - 1)
  }

  /** The distance to a constant value decays by the factor 1 - alpha in every step. */
  lemma {:induction false} SmoothDecay(p: real, current: real, alpha: real, n: nat)
    ensures current - SmoothedTowards(p, current, alpha, n) == Power(1.0 - alpha, n) * (current - p)
    ensures Smooth(None, current, alpha) == current
  {
    if n > 0 {
      SmoothDecay(p, current, alpha, n - 1);
      DecayStep(SmoothedTowards(p, current, alpha, n - 1), current, alpha, Power(1.0 - alpha, n - 1), current - p);
    }
  }

  lemma DecayStep(q: real, current: real, alpha: real, power: real, distance: real)
    requires current - q == power * distance
    ensures current - (q + alpha * (current - q)) == (1.0 - alpha) * power * distance
  {
  }

  lemma StepBetween(alpha: real, d: real, step: real)
    requires 0.0 < alpha <= 1.0 && d >= 0.0 && step == alpha * d
    ensures 0.0 <= step <= d
  {
  }

  /** Whether a minute of the day lies in a window that may wrap past midnight; equal ends mean all day. */
  predicate InDayWindow(minute: int, start: int, end: int) {
    var length := (end - start) % MINUTES_PER_DAY;
    length == 0 || (minute - start) % MINUTES_PER_DAY < length
  }

  /** The window test agrees with plain interval membership, on either side of midnight. */
  lemma DayWindowMeaning(minute: int, start: int, end: int)
    requires 0 <= minute < MINUTES_PER_DAY && 0 <= start < MINUTES_PER_DAY && 0 <= end < MINUTES_PER_DAY
    ensures InDayWindow(minute, start, end) <==>
            if start == end then true
            else if start < end then start <= minute < end
            else minute >= start || minute < end
  {
    assert (end - start) % MINUTES_PER_DAY == if end >= start then end - start else end - start + 1440;
    assert (minute - start) % MINUTES_PER_DAY == if minute >= start then minute - start else minute - start + 1440;
  }
}
