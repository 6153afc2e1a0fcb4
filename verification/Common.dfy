/** Small value types and real-number helpers shared by every component. */
module Common {

  datatype Option<+T> = None | Some(value: T)

  datatype Result<+T, +E> = Ok(value: T) | Err(error: E)

  function Max(a: real, b: real): (m: real)
    ensures a <= m && b <= m && (m == a || m == b)
  {
    if a >= b then a else b
  }

  function Min(a: real, b: real): (m: real)
    ensures m <= a && m <= b && (m == a || m == b)
  {
    if a <= b then a else b
  }

  function Sum(xs: seq<real>): real {
    if xs == [] then 0.0 else xs[0] + Sum(xs[1..])
  }

  function Mean(xs: seq<real>): real
    requires xs != []
  {
    Sum(xs) / |xs| as real
  }

  ghost predicate Within(xs: seq<real>, lo: real, hi: real) {
    forall i :: 0 <= i < |xs| ==> lo <= xs[i] <= hi
  }

  lemma {:induction false} SumAppend(xs: seq<real>, ys: seq<real>)
    ensures Sum(xs + ys) == Sum(xs) + Sum(ys)
  {
    if xs == [] {
      assert xs + ys == ys;
    } else {
      assert (xs + ys)[1..] == xs[1..] + ys;
      SumAppend(xs[1..], ys);
    }
  }

  // ---- What a mean is ----

  /** A mean times the number of its values is their sum. */
  lemma MeanTimesCount(xs: seq<real>)
    requires xs != []
    ensures Mean(xs) * |xs| as real == Sum(xs)
  {
  }

  lemma MeanOfOne(x: real)
    ensures Mean([x]) == x
  {
    assert Sum([x]) == x + Sum([x][1..]) && [x][1..] == [];
    assert Mean([x]) == x / |[x]| as real;
  }

  /** The mean of a joined sequence is the mean of its parts weighted by their lengths. With the mean of one value this
      fixes every mean. */
  lemma MeanOfJoin(a: seq<real>, b: seq<real>)
    requires a != [] && b != []
    ensures Mean(a + b) * |a + b| as real == Mean(a) * |a| as real + Mean(b) * |b| as real
  {
    SumAppend(a, b);
    MeanTimesCount(a);
    MeanTimesCount(b);
    MeanTimesCount(a + b);
  }

  /** n copies of a. */
  function Times(n: nat, a: real): real {
    n as real * a
  }

  lemma TimesStep(n: nat, a: real)
    ensures Times(n + 1, a) == Times(n, a) + a
  {
    assert (n + 1) as real == n as real + 1.0;
  }

  lemma {:induction false} SumBetween(xs: seq<real>, lo: real, hi: real)
    requires Within(xs, lo, hi)
    ensures Times(|xs|, lo) <= Sum(xs) <= Times(|xs|, hi)
  {
    if xs != [] {
      SumBetween(xs[1..], lo, hi);
      TimesStep(|xs| - 1, lo);
      TimesStep(|xs| - 1, hi);
    }
  }

  lemma ProductOrder(x: real, y: real, scale: real)
    requires x <= y && scale >= 0.0
    ensures x * scale <= y * scale
  {
  }

  lemma PositiveProduct(x: real, y: real)
    requires x > 0.0 && y > 0.0
    ensures x * y > 0.0
  {
  }

  lemma QuotientOrder(x: real, y: real, d: real)
    requires x <= y && d > 0.0
    ensures x / d <= y / d
  {
  }

  /** A mean never leaves the hull of its values. */
  lemma MeanBetween(xs: seq<real>, lo: real, hi: real)
    requires xs != [] && Within(xs, lo, hi)
    ensures lo <= Mean(xs) <= hi
  {
    SumBetween(xs, lo, hi);
    var n := |xs| as real;
    assert n >= 1.0;
    QuotientOrder(Times(|xs|, lo), Sum(xs), n);
    QuotientOrder(Sum(xs), Times(|xs|, hi), n);
    TimesQuotient(|xs|, lo);
    TimesQuotient(|xs|, hi);
  }

  lemma TimesQuotient(n: nat, a: real)
    requires n >= 1
    ensures Times(n, a) / n as real == a
  {
  }

  /** Python's round(): nearest integer, halves to the even one. */
  function RoundHalfEven(x: real): int {
    var f := x.Floor;
    var d := x - f as real;
    if d < 0.5 || (d == 0.5 && f % 2 == 0) then f else f + 1
  }

  lemma RoundError(x: real)
    ensures var error := RoundHalfEven(x) as real - x;
            -0.5 <= error <= 0.5 && (error == -0.5 || error == 0.5 ==> RoundHalfEven(x) % 2 == 0)
  {
  }

  lemma RoundMonotone(x: real, y: real)
    requires x <= y
    ensures RoundHalfEven(x) <= RoundHalfEven(y)
  {
  }
}
