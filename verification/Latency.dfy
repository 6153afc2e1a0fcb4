/** The rolling latency window and its nearest-rank percentiles. */
module Latency {
  import opened Common
  import opened TimedWindow

  // ---- Nearest-rank percentiles ----

  function Inserted(x: real, ordered: seq<real>): (r: seq<real>)
    ensures |r| == |ordered| + 1
  {
    if ordered == [] || x <= ordered[0] then [x] + ordered else [ordered[0]] + Inserted(x, ordered[1..])
  }

  function Sorted(values: seq<real>): (r: seq<real>)
    ensures |r| == |values|
  {
    if values == [] then [] else Inserted(values[0], Sorted(values[1..]))
  }

  function Ceiling(x: real): int { -(-x).Floor }

  function Share(n: nat, fraction: real): real { fraction * n as real }

  /** The one-based rank of a percentile among n samples. */
  function Rank(n: nat, fraction: real): int {
    var c := Ceiling(Share(n, fraction));
    if c > 1 then c else 1
  }

  lemma RankInRange(n: nat, fraction: real)
    requires n > 0 && fraction <= 1.0
    ensures 1 <= Rank(n, fraction) <= n
    ensures fraction > 0.0 ==> Rank(n, fraction) == Ceiling(Share(n, fraction))
  {
    var x := fraction * n as real;
    ProductOrder(fraction, 1.0, n as real);
    assert x <= n as real;
    assert -x >= -(n as real);
    if fraction > 0.0 {
      PositiveProduct(fraction, n as real);
    }
  }

  function Percentile(values: seq<real>, fraction: real): real
    requires fraction <= 1.0
  {
    if values == [] then 0.0
    else
      RankInRange(|values|, fraction);
      Sorted(values)[Rank(|values|, fraction) - 1]
  }

  ghost predicate Ascending(s: seq<real>) {
    forall i, j :: 0 <= i <= j < |s| ==> s[i] <= s[j]
  }

  /** How many values are at most x. */
  function AtMost(values: seq<real>, x: real): nat {
    if values == [] then 0 else (if values[0] <= x then 1 else 0) + AtMost(values[1..], x)
  }

  lemma {:induction false} InsertedSameValues(x: real, ordered: seq<real>)
    ensures multiset(Inserted(x, ordered)) == multiset([x] + ordered)
  {
    if ordered != [] && x > ordered[0] {
      InsertedSameValues(x, ordered[1..]);
      assert ordered == [ordered[0]] + ordered[1..];
    }
  }

  ghost predicate AllAtLeast(s: seq<real>, low: real) {
    forall i :: 0 <= i < |s| ==> low <= s[i]
  }

  lemma {:induction false} InsertedAtLeast(x: real, ordered: seq<real>, low: real)
    requires low <= x && AllAtLeast(ordered, low)
    ensures AllAtLeast(Inserted(x, ordered), low)
  {
    if ordered != [] && x > ordered[0] {
      InsertedAtLeast(x, ordered[1..], low);
    }
  }

  lemma AscendingFrom(first: real, rest: seq<real>)
    requires Ascending(rest) && AllAtLeast(rest, first)
    ensures Ascending([first] + rest)
  {
  }

  lemma {:induction false} InsertedAscending(x: real, ordered: seq<real>)
    requires Ascending(ordered)
    ensures Ascending(Inserted(x, ordered))
  {
    if ordered == [] || x <= ordered[0] {
      AscendingFrom(x, ordered);
    } else {
      InsertedAscending(x, ordered[1..]);
      InsertedAtLeast(x, ordered[1..], ordered[0]);
      AscendingFrom(ordered[0], Inserted(x, ordered[1..]));
    }
  }

  lemma {:induction false} InsertedAtMost(x: real, ordered: seq<real>, bound: real)
    ensures AtMost(Inserted(x, ordered), bound) == AtMost(ordered, bound) + if x <= bound then 1 else 0
  {
    if ordered != [] && x > ordered[0] {
      InsertedAtMost(x, ordered[1..], bound);
      assert ([ordered[0]] + Inserted(x, ordered[1..]))[1..] == Inserted(x, ordered[1..]);
    } else {
      assert ([x] + ordered)[1..] == ordered;
    }
  }

  lemma {:induction false} SortedIsAscending(values: seq<real>)
    ensures Ascending(Sorted(values)) && multiset(Sorted(values)) == multiset(values)
  {
    if values != [] {
      SortedIsAscending(values[1..]);
      InsertedAscending(values[0], Sorted(values[1..]));
      InsertedSameValues(values[0], Sorted(values[1..]));
      assert values == [values[0]] + values[1..];
    }
  }

  lemma {:induction false} SortedAtMost(values: seq<real>, bound: real)
    ensures AtMost(Sorted(values), bound) == AtMost(values, bound)
  {
    if values != [] {
      SortedAtMost(values[1..], bound);
      InsertedAtMost(values[0], Sorted(values[1..]), bound);
    }
  }

  /** In ascending order, more than k values are at most x exactly when the value at k is. */
  lemma {:induction false} AtMostOfAscending(s: seq<real>, k: nat, x: real)
    requires Ascending(s) && k < |s|
    ensures AtMost(s, x) > k <==> s[k] <= x
  {
    assert s[0] <= s[k];
    if s[0] > x {
      NoneAtMost(s, x);
    } else if k > 0 {
      AtMostOfAscending(s[1..], k - 1, x);
    }
  }

  lemma {:induction false} NoneAtMost(s: seq<real>, x: real)
    requires forall i :: 0 <= i < |s| ==> s[i] > x
    ensures AtMost(s, x) == 0
  {
    if s != [] {
      NoneAtMost(s[1..], x);
    }
  }

  lemma PercentileIsSample(values: seq<real>, fraction: real)
    requires values != [] && fraction <= 1.0
    ensures Percentile(values, fraction) in values
  {
    RankInRange(|values|, fraction);
    SortedIsAscending(values);
    assert Sorted(values)[Rank(|values|, fraction) - 1] in multiset(values);
  }

  /** Nearest rank: the percentile is a sample, and it is the least number that at least ceil(fraction * n) samples do
      not exceed. */
  lemma PercentileMeaning(values: seq<real>, fraction: real, x: real)
    requires values != [] && 0.0 < fraction <= 1.0
    ensures Percentile(values, fraction) in values
    ensures AtMost(values, x) >= Ceiling(Share(|values|, fraction)) <==> Percentile(values, fraction) <= x
  {
    RankInRange(|values|, fraction);
    PercentileIsSample(values, fraction);
    SortedIsAscending(values);
    SortedAtMost(values, x);
    AtMostOfAscending(Sorted(values), Rank(|values|, fraction) - 1, x);
  }

  lemma CeilingMonotone(x: real, y: real)
    requires x <= y
    ensures Ceiling(x) <= Ceiling(y)
  {
  }

  lemma PercentileMonotone(values: seq<real>, low: real, high: real)
    requires 0.0 < low <= high <= 1.0
    ensures Percentile(values, low) <= Percentile(values, high)
  {
    if values != [] {
      RankInRange(|values|, low);
      RankInRange(|values|, high);
      ShareMonotone(|values|, low, high);
      CeilingMonotone(Share(|values|, low), Share(|values|, high));
      SortedIsAscending(values);
    }
  }

  lemma ShareMonotone(n: nat, low: real, high: real)
    requires low <= high
    ensures Share(n, low) <= Share(n, high)
  {
    ProductOrder(low, high, n as real);
  }

  /** The greatest value. */
  function Greatest(values: seq<real>): (m: real)
    requires values != []
    ensures m in values && forall v :: v in values ==> v <= m
  {
    assert values == [values[0]] + values[1..];
    if |values| == 1 then values[0] else Max(values[0], Greatest(values[1..]))
  }

  // ---- Summaries ----

  datatype Summary = Summary(samples: nat, timeouts: nat, average: real, p95: real, p99: real, greatest: real)

  const EMPTY_SUMMARY := Summary(0, 0, 0.0, 0.0, 0.0, 0.0)

  function Summarized(latencies: seq<real>, timeouts: nat): Summary {
    Summary(
      |latencies|, timeouts,
      if latencies == [] then 0.0 else Mean(latencies),
      Percentile(latencies, 0.95),
      Percentile(latencies, 0.99),
      if latencies == [] then 0.0 else Greatest(latencies))
  }

  /** The figures of a summary are always in order. */
  lemma SummaryInOrder(latencies: seq<real>, timeouts: nat)
    requires forall v :: v in latencies ==> v >= 0.0
    ensures var s := Summarized(latencies, timeouts);
            0.0 <= s.p95 <= s.p99 <= s.greatest && 0.0 <= s.average <= s.greatest
  {
    if latencies != [] {
      PercentileMonotone(latencies, 0.95, 0.99);
      PercentileIsSample(latencies, 0.95);
      PercentileIsSample(latencies, 0.99);
      assert Within(latencies, 0.0, Greatest(latencies)) by {
        assert forall i :: 0 <= i < |latencies| ==> latencies[i] in latencies;
      }
      MeanBetween(latencies, 0.0, Greatest(latencies));
    }
  }

  /** What each figure of a summary is: the numbers of latencies and timeouts, the value that times the number of
      latencies is their sum, the least numbers that 95 and 99 of 100 latencies do not exceed, and the greatest one. */
  lemma SummaryFigures(latencies: seq<real>, timeouts: nat, x: real)
    requires latencies != []
    ensures var s, n := Summarized(latencies, timeouts), |latencies|;
            && s.samples == n && s.timeouts == timeouts
            && s.average * n as real == Sum(latencies)
            && s.p95 in latencies && (s.p95 <= x <==> 100 * AtMost(latencies, x) >= 95 * n)
            && s.p99 in latencies && (s.p99 <= x <==> 100 * AtMost(latencies, x) >= 99 * n)
            && s.greatest in latencies && (s.greatest <= x <==> AtMost(latencies, x) == n)
  {
    PercentileFigures(latencies, timeouts, x);
    GreatestFigure(latencies, timeouts, x);
    AverageFigure(latencies, timeouts);
  }

  lemma PercentileFigures(latencies: seq<real>, timeouts: nat, x: real)
    requires latencies != []
    ensures var s, n := Summarized(latencies, timeouts), |latencies|;
            && s.p95 in latencies && (s.p95 <= x <==> 100 * AtMost(latencies, x) >= 95 * n)
            && s.p99 in latencies && (s.p99 <= x <==> 100 * AtMost(latencies, x) >= 99 * n)
  {
    PercentileRank(latencies, 95, 0.95, x);
    PercentileRank(latencies, 99, 0.99, x);
  }

  lemma GreatestFigure(latencies: seq<real>, timeouts: nat, x: real)
    requires latencies != []
    ensures var s := Summarized(latencies, timeouts);
            s.greatest in latencies && (s.greatest <= x <==> AtMost(latencies, x) == |latencies|)
  {
    AllAtMostIff(latencies, x);
    var i :| 0 <= i < |latencies| && latencies[i] == Greatest(latencies);
  }

  lemma AverageFigure(latencies: seq<real>, timeouts: nat)
    requires latencies != []
    ensures Summarized(latencies, timeouts).average * |latencies| as real == Sum(latencies)
  {
    AverageTimesCount(latencies, Summarized(latencies, timeouts).average);
  }

  lemma AverageTimesCount(xs: seq<real>, average: real)
    requires xs != [] && average == Mean(xs)
    ensures average * |xs| as real == Sum(xs)
  {
  }

  /** Without latencies all figures but the number of timeouts are zero. */
  lemma SummaryOfNothing(timeouts: nat)
    ensures Summarized([], timeouts) == Summary(0, timeouts, 0.0, 0.0, 0.0, 0.0)
  {
  }

  lemma PercentileRank(values: seq<real>, percent: nat, fraction: real, x: real)
    requires values != [] && 0 < percent <= 100 && fraction * 100.0 == percent as real
    ensures var p := Percentile(values, fraction);
            p in values && (p <= x <==> 100 * AtMost(values, x) >= percent * |values|)
  {
    PercentileMeaning(values, fraction, x);
    ShareIffRank(|values|, percent, fraction, AtMost(values, x));
  }

  lemma ShareIffRank(n: nat, percent: nat, fraction: real, k: nat)
    requires fraction * 100.0 == percent as real
    ensures k >= Ceiling(Share(n, fraction)) <==> 100 * k >= percent * n
  {
    assert 100.0 * Share(n, fraction) == (percent * n) as real;
  }

  lemma {:induction false} AllAtMostIff(values: seq<real>, x: real)
    ensures AtMost(values, x) <= |values|
    ensures AtMost(values, x) == |values| <==> forall i :: 0 <= i < |values| ==> values[i] <= x
  {
    if values != [] {
      AllAtMostIff(values[1..], x);
      assert forall i :: 0 <= i < |values| - 1 ==> values[1..][i] == values[i + 1];
      if AtMost(values[1..], x) == |values| - 1 && values[0] <= x {
        forall i | 0 <= i < |values| ensures values[i] <= x {
          assert i > 0 ==> values[i] == values[1..][i - 1];
        }
      }
    }
  }

  // ---- The window as a function of what was recorded ----

  /** One call of a window. A query only drops old entries. */
  datatype Op = Record(at: real, ms: real) | Failure(at: real) | Query(at: real)

  function Clipped(ms: real): real { Max(0.0, ms) }

  function LatencyOf(op: Op): seq<Timed<real>> {
    if op.Record? then [Timed(op.at, Clipped(op.ms))] else []
  }

  function FailureOf(op: Op): seq<Timed<()>> {
    if op.Failure? then [Timed(op.at, ())] else []
  }

  /** Everything ever recorded. */
  function All<T>(pick: Op -> seq<Timed<T>>, ops: seq<Op>): seq<Timed<T>> {
    if ops == [] then [] else All(pick, ops[..|ops| - 1]) + pick(ops[|ops| - 1])
  }

  /** The recorded latencies are those of the record calls, with negative ones as zero, and the recorded timeouts those of
      the timeout calls, each at its time. */
  lemma RecordedLast(ops: seq<Op>, op: Op)
    ensures All(LatencyOf, ops + [op]) == All(LatencyOf, ops) +
              match op
              case Record(at, ms) => [Timed(at, if ms < 0.0 then 0.0 else ms)]
              case _ => []
    ensures All(FailureOf, ops + [op]) == All(FailureOf, ops) +
              match op
              case Failure(at) => [Timed(at, ())]
              case _ => []
    ensures All(LatencyOf, []) == [] && All(FailureOf, []) == []
  {
    assert (ops + [op])[..|ops|] == ops;
  }

  /** What a deque holds when every call appends and then drops old entries from the front. */
  function Deque<T>(pick: Op -> seq<Timed<T>>, ops: seq<Op>, window: real): seq<Timed<T>> {
    if ops == [] then []
    else
      var op := ops[|ops| - 1];
      Pruned(Deque(pick, ops[..|ops| - 1], window) + pick(op), op.at - window)
  }

  ghost predicate InOrder(ops: seq<Op>) {
    forall i, j :: 0 <= i < j < |ops| ==> ops[i].at <= ops[j].at
  }

  ghost predicate Stamps<T>(pick: Op -> seq<Timed<T>>) {
    forall op :: |pick(op)| <= 1 && forall e :: e in pick(op) ==> e.at == op.at
  }

  lemma {:induction false} AllInOrder<T>(pick: Op -> seq<Timed<T>>, ops: seq<Op>)
    requires Stamps(pick) && InOrder(ops)
    ensures Ordered(All(pick, ops))
    ensures forall e :: e in All(pick, ops) ==> ops != [] && e.at <= ops[|ops| - 1].at
    decreases |ops|
  {
    if ops != [] {
      var earlier, op := ops[..|ops| - 1], ops[|ops| - 1];
      AllInOrder(pick, earlier);
      assert |pick(op)| <= 1;
      forall e | e in All(pick, earlier)
        ensures e.at <= op.at
      {
        assert earlier != [] && e.at <= earlier[|earlier| - 1].at;
      }
    }
  }

  /** When times never go back, the deque is exactly what was recorded within the window before the last call. */
  lemma {:induction false} DequeIsRecent<T>(pick: Op -> seq<Timed<T>>, ops: seq<Op>, window: real)
    requires Stamps(pick) && InOrder(ops) && ops != []
    ensures Deque(pick, ops, window) == Recent(All(pick, ops), ops[|ops| - 1].at - window)
    decreases |ops|
  {
    var earlier, op := ops[..|ops| - 1], ops[|ops| - 1];
    AllInOrder(pick, ops);
    if earlier == [] {
      WindowStep<T>([], [], pick(op), op.at - window, op.at - window);
    } else {
      DequeIsRecent(pick, earlier, window);
      WindowStep(All(pick, earlier), Deque(pick, earlier, window), pick(op),
                 earlier[|earlier| - 1].at - window, op.at - window);
    }
  }

  function Items<T>(entries: seq<Timed<T>>): (items: seq<T>)
    ensures |items| == |entries|
  {
    seq(|entries|, i requires 0 <= i < |entries| => entries[i].item)
  }

  /** The summary that a window holding some deques gives. */
  function WindowSummary(ops: seq<Op>, window: real): Summary {
    Summarized(Items(Deque(LatencyOf, ops, window)), |Deque(FailureOf, ops, window)|)
  }

  /** The summary of everything recorded at or after a cutoff. */
  function HistorySummary(ops: seq<Op>, cutoff: real): Summary {
    Summarized(Items(Recent(All(LatencyOf, ops), cutoff)), |Recent(All(FailureOf, ops), cutoff)|)
  }

  /** For times that never go back, forgetting makes no difference: the summary is that of the full history filtered to
      the window. */
  lemma SummaryIsOfHistory(ops: seq<Op>, window: real, now: real)
    requires InOrder(ops + [Query(now)])
    ensures WindowSummary(ops + [Query(now)], window) == HistorySummary(ops, now - window)
  {
    var asked := ops + [Query(now)];
    assert asked[..|asked| - 1] == ops;
    DequeIsRecent(LatencyOf, asked, window);
    DequeIsRecent(FailureOf, asked, window);
    assert All(LatencyOf, asked) == All(LatencyOf, ops);
    assert All(FailureOf, asked) == All(FailureOf, ops);
  }

  lemma DequeStep(ops: seq<Op>, op: Op, window: real)
    ensures Deque(LatencyOf, ops + [op], window) == Pruned(Deque(LatencyOf, ops, window) + LatencyOf(op), op.at - window)
    ensures Deque(FailureOf, ops + [op], window) == Pruned(Deque(FailureOf, ops, window) + FailureOf(op), op.at - window)
    ensures !op.Record? ==> Deque(LatencyOf, ops, window) + LatencyOf(op) == Deque(LatencyOf, ops, window)
    ensures !op.Failure? ==> Deque(FailureOf, ops, window) + FailureOf(op) == Deque(FailureOf, ops, window)
  {
    assert (ops + [op])[..|ops|] == ops;
  }

  lemma {:induction false} DequeIsClipped(ops: seq<Op>, window: real)
    ensures forall e :: e in Deque(LatencyOf, ops, window) ==> e.item >= 0.0
    decreases |ops|
  {
    if ops != [] {
      DequeIsClipped(ops[..|ops| - 1], window);
      var op := ops[|ops| - 1];
      PrunedStep(Deque(LatencyOf, ops[..|ops| - 1], window) + LatencyOf(op), op.at - window);
    }
  }

  lemma WindowSummaryInOrder(ops: seq<Op>, window: real)
    ensures var s := WindowSummary(ops, window);
            0.0 <= s.p95 <= s.p99 <= s.greatest && 0.0 <= s.average <= s.greatest
  {
    DequeIsClipped(ops, window);
    SummaryInOrder(Items(Deque(LatencyOf, ops, window)), |Deque(FailureOf, ops, window)|);
  }

  // ---- The window object ----

  class LatencyWindow {
    const windowSeconds: real
    var latencies: seq<Timed<real>>
    var timeouts: seq<Timed<()>>
    ghost var ops: seq<Op>

    ghost predicate Valid()
      reads this
    {
      && windowSeconds >= 1.0
      && latencies == Deque(LatencyOf, ops, windowSeconds)
      && timeouts == Deque(FailureOf, ops, windowSeconds)
    }

    constructor (windowSeconds: real)
      ensures Valid() && ops == [] && this.windowSeconds == Max(1.0, windowSeconds)
    {
      this.windowSeconds := Max(1.0, windowSeconds);
      latencies, timeouts, ops := [], [], [];
    }

    /** The deques after appending what a call brings, before dropping old entries. */
    ghost predicate Appended(op: Op)
      reads this
    {
      && windowSeconds >= 1.0
      && latencies == Deque(LatencyOf, ops, windowSeconds) + LatencyOf(op)
      && timeouts == Deque(FailureOf, ops, windowSeconds) + FailureOf(op)
    }

    method RecordLatency(ms: real, now: real)
      requires Valid()
      modifies this
      ensures Valid() && ops == old(ops) + [Record(now, ms)]
    {
      DequeStep(ops, Record(now, ms), windowSeconds);
      latencies := latencies + [Timed(now, Max(0.0, ms))];
      Prune(now, Record(now, ms));
    }

    method RecordTimeout(now: real)
      requires Valid()
      modifies this
      ensures Valid() && ops == old(ops) + [Failure(now)]
    {
      DequeStep(ops, Failure(now), windowSeconds);
      timeouts := timeouts + [Timed(now, ())];
      Prune(now, Failure(now));
    }

    /** Drops what is older than the window from the front of both deques, which completes a call. */
    method Prune(now: real, ghost op: Op)
      requires Appended(op) && op.at == now
      modifies this
      ensures Valid() && ops == old(ops) + [op]
    {
      var cutoff := now - windowSeconds;
      while latencies != [] && latencies[0].at < cutoff
        invariant Pruned(latencies, cutoff) == Pruned(old(latencies), cutoff)
        invariant timeouts == old(timeouts) && ops == old(ops)
        decreases |latencies|
      {
        latencies := latencies[1..];
      }
      while timeouts != [] && timeouts[0].at < cutoff
        invariant Pruned(timeouts, cutoff) == Pruned(old(timeouts), cutoff)
        invariant latencies == Pruned(old(latencies), cutoff) && ops == old(ops)
        decreases |timeouts|
      {
        timeouts := timeouts[1..];
      }
      DequeStep(ops, op, windowSeconds);
      ops := ops + [op];
    }

    /** The summary of the window; when times never went back, that of everything recorded within it. */
    method SummaryAt(now: real) returns (s: Summary)
      requires Valid()
      modifies this
      ensures Valid() && ops == old(ops) + [Query(now)]
      ensures s == WindowSummary(ops, windowSeconds)
      ensures InOrder(ops) ==> s == HistorySummary(old(ops), now - windowSeconds)
    {
      DequeStep(ops, Query(now), windowSeconds);
      Prune(now, Query(now));
      if InOrder(ops) {
        SummaryIsOfHistory(old(ops), windowSeconds, now);
      }
      s := Summarized(Items(latencies), |timeouts|);
    }
  }
}
