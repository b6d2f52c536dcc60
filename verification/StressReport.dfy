/** The stress trader's step report: percentiles of the step's round trips, and the rate controller they drive. */
module StressReport {
  import opened Permutations
  import opened RttAccounting

  // ----- percentiles

  predicate Ascending(s: seq<real>) {
    forall i, j :: 0 <= i < j < |s| ==> s[i] <= s[j]
  }

  function Insert(x: real, s: seq<real>): seq<real> {
    if s == [] || x <= s[0] then [x] + s else [s[0]] + Insert(x, s[1..])
  }

  function Sort(s: seq<real>): seq<real> {
    if s == [] then [] else Insert(s[0], Sort(s[1..]))
  }

  lemma {:induction false} InsertAdds(x: real, s: seq<real>)
    ensures multiset(Insert(x, s)) == multiset{x} + multiset(s)
  {
    if s != [] && x > s[0] {
      InsertAdds(x, s[1..]);
      assert multiset(s) == multiset{s[0]} + multiset(s[1..]) by { assert s == [s[0]] + s[1..]; }
    }
  }

  lemma {:induction false} InsertSorts(x: real, s: seq<real>)
    requires Ascending(s)
    ensures Ascending(Insert(x, s))
  {
    if s != [] && x > s[0] {
      var rest := Insert(x, s[1..]);
      InsertSorts(x, s[1..]);
      InsertAdds(x, s[1..]);
      forall i | 0 <= i < |rest| ensures s[0] <= rest[i] {
        assert rest[i] in multiset(rest);
        assert rest[i] == x || rest[i] in s[1..];
      }
    }
  }

  lemma {:induction false} SortSorts(s: seq<real>)
    ensures Ascending(Sort(s)) && multiset(Sort(s)) == multiset(s)
    ensures |Sort(s)| == |s|
  {
    if s != [] {
      SortSorts(s[1..]);
      InsertSorts(s[0], Sort(s[1..]));
      InsertAdds(s[0], Sort(s[1..]));
      assert s == [s[0]] + s[1..];
    }
    assert |multiset(Sort(s))| == |multiset(s)|;
  }

  /** The position of a percentile, clamped to the last sample. */
  function Index(n: nat, percent: nat): nat
    requires n > 0
  {
    var i := n * percent / 100;
    if i >= n then n - 1 else i
  }

  function Percentile(rtts: seq<real>, percent: nat): real {
    SortSorts(rtts);
    if rtts == [] then 0.0 else Sort(rtts)[Index(|rtts|, percent)]
  }

  function AtMost(v: real): real -> int {
    x => if x <= v then 1 else 0
  }

  function Below(v: real): real -> int {
    x => if x < v then 1 else 0
  }

  /** `v` has rank `k` among the samples: at most `k` are smaller and more than `k` are not larger. */
  predicate HasRank(rtts: seq<real>, v: real, k: nat) {
    Sum(rtts, Below(v)) <= k < Sum(rtts, AtMost(v))
  }

  lemma {:induction false} SumOfOnes(s: seq<real>, f: real -> int)
    requires forall x :: 0 <= f(x) <= 1
    ensures 0 <= Sum(s, f) <= |s|
  {
    if s != [] {
      SumOfOnes(s[..|s| - 1], f);
    }
  }

  lemma {:induction false} SumOfZeros(s: seq<real>, f: real -> int)
    requires forall i :: 0 <= i < |s| ==> f(s[i]) == 0
    ensures Sum(s, f) == 0
  {
    if s != [] {
      SumOfZeros(s[..|s| - 1], f);
    }
  }

  lemma {:induction false} AllOnes(s: seq<real>, f: real -> int)
    requires forall i :: 0 <= i < |s| ==> f(s[i]) == 1
    ensures Sum(s, f) == |s|
  {
    if s != [] {
      AllOnes(s[..|s| - 1], f);
    }
  }

  lemma SplitAt(s: seq<real>, k: nat, m: nat)
    requires Ascending(s) && m == k + 1 <= |s|
    ensures forall i :: 0 <= i < m ==> s[..m][i] <= s[k]
    ensures forall i :: 0 <= i < |s| - k ==> s[k] <= s[k..][i]
  {
  }

  lemma CountBelow(s: seq<real>, k: nat)
    requires Ascending(s) && k < |s|
    ensures Sum(s, Below(s[k])) <= k
  {
    hide Ascending;
    SplitAt(s, k, k + 1);
    var front, back, f := s[..k], s[k..], Below(s[k]);
    assert s == front + back;
    SumConcat(front, back, f);
    SumOfOnes(front, f);
    SumOfZeros(back, f);
  }

  lemma CountAtMost(s: seq<real>, k: nat)
    requires Ascending(s) && k < |s|
    ensures k < Sum(s, AtMost(s[k]))
  {
    hide Ascending;
    SplitAt(s, k, k + 1);
    var front, back, f := s[..k + 1], s[k + 1..], AtMost(s[k]);
    assert s == front + back;
    SumConcat(front, back, f);
    AllOnes(front, f);
    SumOfOnes(back, f);
  }

  lemma {:induction false} SumMonotone(s: seq<real>, f: real -> int, g: real -> int)
    requires forall x :: f(x) <= g(x)
    ensures Sum(s, f) <= Sum(s, g)
  {
    if s != [] {
      SumMonotone(s[..|s| - 1], f, g);
    }
  }

  lemma RankDecides(rtts: seq<real>, v: real, w: real, k: nat)
    requires HasRank(rtts, v, k) && HasRank(rtts, w, k)
    ensures v >= w
  {
    if v < w {
      SumMonotone(rtts, AtMost(v), Below(w));
    }
  }

  lemma IndexInside(n: nat, percent: nat)
    requires n > 0 && percent < 100
    ensures n * percent / 100 < n && Index(n, percent) == n * percent / 100
  {
    assert n * percent < 100 * n;
  }

  lemma PermutedRank(rtts: seq<real>, sorted: seq<real>, v: real, k: nat)
    requires multiset(rtts) == multiset(sorted) && HasRank(sorted, v, k)
    ensures HasRank(rtts, v, k)
  {
    hide Sum;
    SumPermuted(rtts, sorted, Below(v));
    SumPermuted(rtts, sorted, AtMost(v));
  }

  lemma PercentileHasRank(rtts: seq<real>, percent: nat)
    requires rtts != [] && percent < 100
    ensures HasRank(rtts, Percentile(rtts, percent), Index(|rtts|, percent))
    ensures Percentile(rtts, percent) in rtts
  {
    hide Sum, Index;
    var k, sorted := Index(|rtts|, percent), Sort(rtts);
    SortSorts(rtts);
    IndexInside(|rtts|, percent);
    CountBelow(sorted, k);
    CountAtMost(sorted, k);
    PermutedRank(rtts, sorted, sorted[k], k);
    assert sorted[k] in multiset(sorted);
  }

  /**
   The percentile is the one value of its rank among the samples as they were collected, whatever their
   order; the clamp is never needed below a hundred percent.
   */
  lemma PercentileIsTheRank(rtts: seq<real>, percent: nat, v: real)
    requires rtts != [] && percent < 100
    ensures Index(|rtts|, percent) == |rtts| * percent / 100
    ensures HasRank(rtts, v, |rtts| * percent / 100) <==> v == Percentile(rtts, percent)
    ensures Percentile(rtts, percent) in rtts
  {
    hide HasRank, Sum, Percentile, Index;
    var k, p := Index(|rtts|, percent), Percentile(rtts, percent);
    IndexInside(|rtts|, percent);
    PercentileHasRank(rtts, percent);
    if HasRank(rtts, v, k) {
      RankDecides(rtts, v, p, k);
      RankDecides(rtts, p, v, k);
    }
  }

  /** More than that part of the samples is no larger than the percentile, and no more than it is smaller. */
  lemma PercentileSplits(rtts: seq<real>, percent: nat)
    requires rtts != [] && percent < 100
    ensures 100 * Sum(rtts, AtMost(Percentile(rtts, percent))) > percent * |rtts|
    ensures 100 * Sum(rtts, Below(Percentile(rtts, percent))) <= percent * |rtts|
  {
    PercentileIsTheRank(rtts, percent, Percentile(rtts, percent));
  }

  lemma ProductOrder(n: nat, a: nat, b: nat)
    requires a <= b
    ensures n * a <= n * b
  {
  }

  lemma PercentilesRise(rtts: seq<real>, lower: nat, upper: nat)
    requires lower <= upper
    ensures Percentile(rtts, lower) <= Percentile(rtts, upper)
  {
    SortSorts(rtts);
    ProductOrder(|rtts|, lower, upper);
  }

  // ----- the step's numbers

  function Values(xs: seq<Sample>): (rs: seq<real>)
    ensures |rs| == |xs| && forall i :: 0 <= i < |xs| ==> rs[i] == xs[i].rtt
  {
    seq(|xs|, i requires 0 <= i < |xs| => xs[i].rtt)
  }

  function Average(s: Stats): real {
    if s.count > 0 then s.sum / s.count as real else 0.0
  }

  lemma {:induction false} SumWithin(xs: seq<Sample>, bound: real)
    requires forall i :: 0 <= i < |xs| ==> 0.0 <= xs[i].rtt <= bound
    ensures 0.0 <= SumRtt(xs) <= |xs| as real * bound
  {
    if xs != [] {
      SumWithin(xs[..|xs| - 1], bound);
    }
  }

  lemma DivisionBounds(sum: real, n: nat, bound: real)
    requires n > 0 && 0.0 <= sum <= n as real * bound
    ensures 0.0 <= sum / n as real <= bound
  {
  }

  lemma DivisionUndone(sum: real, n: nat)
    requires n > 0
    ensures sum / n as real * n as real == sum
  {
  }

  lemma NoSum()
    ensures SumRtt([]) == 0.0
  {
  }

  lemma NoSamples()
    ensures Percentile([], 90) == Percentile([], 99) == 0.0
  {
  }

  /** The average times the number of samples is their sum; without any it is zero. */
  predicate IsAverage(average: real, xs: seq<Sample>) {
    average * |xs| as real == SumRtt(xs) && (xs == [] ==> average == 0.0)
  }

  lemma AverageIsOfSamples(s: Stats)
    requires StatsInv(s)
    ensures IsAverage(Average(s), s.samples)
  {
    hide SumRtt;
    if s.count > 0 {
      DivisionUndone(s.sum, s.count);
    } else {
      assert s.samples == [] && SumRtt([]) == 0.0 by { NoSum(); }
    }
  }

  /** In every reachable state: 0 <= p90 <= p99 <= max, and the average does not exceed the maximum. */
  lemma RowIsOrdered(s: Stats)
    requires StatsInv(s)
    ensures 0.0 <= Percentile(Values(s.samples), 90) <= Percentile(Values(s.samples), 99) <= s.max
    ensures 0.0 <= Average(s) <= s.max
  {
    hide Percentile, HasRank, SumRtt;
    NoSamples();
    var rtts := Values(s.samples);
    PercentilesRise(rtts, 90, 99);
    SumWithin(s.samples, s.max);
    if rtts != [] {
      PercentileIsTheRank(rtts, 90, 0.0);
      PercentileIsTheRank(rtts, 99, 0.0);
      DivisionBounds(s.sum, s.count, s.max);
    }
  }

  // ----- the rate controller

  const TARGET := 1000000.0

  const START_INTERVAL := 1000.0

  /**
   The latency the controller acts on. The silence test looks at what happened since the report started:
   the samples that arrived after the step's numbers were taken, and the orders sent after they were counted.
   */
  function EffectiveLatency(average: real, lateSamples: nat, lateSends: nat): real {
    if average == 0.0 && lateSamples == 0 && lateSends > 0 then TARGET * 5.0 else average
  }

  function Adjustment(latency: real): real {
    if latency > TARGET then
      var adj := 0.20 * (latency / TARGET);
      if adj > 1.0 then 1.0 else adj
    else
      -0.20 * ((TARGET - latency) / TARGET)
  }

  /** The interval never goes below one microsecond. */
  function Floored(x: real): real {
    if x < 1.0 then 1.0 else x
  }

  predicate IsHigher(z: real, x: real, y: real) {
    z >= x && z >= y && (z == x || z == y)
  }

  lemma FlooredIsHigher(x: real)
    ensures IsHigher(Floored(x), x, 1.0)
  {
  }

  function NextInterval(interval: real, latency: real): real {
    Floored(interval * (1.0 + Adjustment(latency)))
  }

  lemma AdjustmentFacts(latency: real)
    requires latency >= 0.0
    ensures -0.20 <= Adjustment(latency) <= 1.0
    ensures latency > TARGET ==> Adjustment(latency) > 0.20
    ensures latency < TARGET ==> Adjustment(latency) < 0.0
    ensures latency == TARGET ==> Adjustment(latency) == 0.0
    ensures Adjustment(latency) == 1.0 <==> latency >= 5.0 * TARGET
    ensures Adjustment(latency) == -0.20 <==> latency == 0.0
  {
  }

  lemma ScaleStrictly(x: real, a: real)
    requires x > 0.0
    ensures a > 0.0 ==> x * (1.0 + a) > x
    ensures a < 0.0 ==> x * (1.0 + a) < x
  {
  }

  /**
   Up to the target of a second the interval is multiplied by 0.8 plus 0.2 for the used share of it; beyond, by 1
   plus a fifth of the latency in seconds, at most by 2. It never goes below one microsecond.
   */
  lemma NextIntervalIs(interval: real, latency: real)
    requires interval >= 1.0 && latency >= 0.0
    ensures latency <= 1000000.0 ==>
              NextInterval(interval, latency) == Floored(interval * (0.8 + 0.2 * (latency / 1000000.0)))
    ensures 1000000.0 < latency < 5000000.0 ==>
              NextInterval(interval, latency) == interval * (1.0 + 0.2 * (latency / 1000000.0))
    ensures latency >= 5000000.0 ==> NextInterval(interval, latency) == interval * 2.0
  {
    if latency <= 1000000.0 {
      assert 1.0 + Adjustment(latency) == 0.8 + 0.2 * (latency / 1000000.0);
    } else {
      AdjustmentFacts(latency);
      ScaleStrictly(interval, Adjustment(latency));
    }
  }

  lemma ScaleBetween(x: real, lo: real, a: real, hi: real)
    requires x >= 0.0 && lo <= a <= hi
    ensures x * lo <= x * a <= x * hi
  {
  }

  lemma FlooredBetween(interval: real, adj: real)
    requires interval >= 1.0 && -0.20 <= adj <= 1.0
    ensures interval * 0.8 <= Floored(interval * (1.0 + adj)) <= interval * 2.0
  {
    assert interval * (1.0 + adj) == interval + interval * adj;
    ScaleBetween(interval, -0.20, adj, 1.0);
  }

  /** One step changes the interval by a factor between 0.8 and 2 and never below one microsecond. */
  lemma IntervalStaysInBounds(interval: real, latency: real)
    requires interval >= 1.0 && latency >= 0.0
    ensures NextInterval(interval, latency) >= 1.0
    ensures interval * 0.8 <= NextInterval(interval, latency) <= interval * 2.0
  {
    AdjustmentFacts(latency);
    FlooredBetween(interval, Adjustment(latency));
  }

  /** The interval rises exactly when the latency is over target, and falls exactly when there is headroom. */
  lemma IntervalFollowsLatency(interval: real, latency: real)
    requires interval >= 1.0 && latency >= 0.0
    ensures NextInterval(interval, latency) > interval <==> latency > 1000000.0
    ensures NextInterval(interval, latency) < interval <==> latency < 1000000.0 && interval > 1.0
  {
    AdjustmentFacts(latency);
    ScaleStrictly(interval, Adjustment(latency));
  }

  lemma AdjustmentRises(low: real, high: real)
    requires low <= high
    ensures Adjustment(low) <= Adjustment(high)
  {
  }

  lemma ProductRises(x: real, y: real, a: real, b: real)
    requires 0.0 <= x <= y && 0.0 <= a <= b
    ensures x * a <= y * b
  {
    assert x * a <= x * b <= y * b;
  }

  /** A slower exchange or a longer interval never leads to a shorter one. */
  lemma IntervalIsMonotone(x: real, y: real, low: real, high: real)
    requires 1.0 <= x <= y && 0.0 <= low <= high
    ensures NextInterval(x, low) <= NextInterval(y, high)
  {
    AdjustmentRises(low, high);
    AdjustmentFacts(low);
    ProductRises(x, y, 1.0 + Adjustment(low), 1.0 + Adjustment(high));
  }

  // ----- runs of the controller

  function RunIntervals(start: real, latencies: seq<real>): real {
    if latencies == [] then start
    else NextInterval(RunIntervals(start, latencies[..|latencies| - 1]), latencies[|latencies| - 1])
  }

  /** start * factor ^ k */
  function Geometric(start: real, factor: real, k: nat): real {
    if k == 0 then start else Geometric(start, factor, k - 1) * factor
  }

  function Zeros(k: nat): seq<real> {
    seq(k, _ => 0.0)
  }

  lemma NextAtZero(interval: real)
    ensures NextInterval(interval, 0.0) == Floored(interval * 0.8)
  {
    assert Adjustment(0.0) == -0.20;
  }

  /** While the latency is zero the interval shrinks geometrically down to the floor. */
  lemma {:induction false} ZeroLatencyRun(start: real, k: nat)
    requires start >= 1.0
    ensures RunIntervals(start, Zeros(k)) == Floored(Geometric(start, 0.8, k))
  {
    if k == 0 {
      assert Zeros(0) == [];
    } else {
      ZeroLatencyRun(start, k - 1);
      assert Zeros(k)[..k - 1] == Zeros(k - 1);
      NextAtZero(RunIntervals(start, Zeros(k - 1)));
    }
  }

  /** Every run of any latencies stays between the run of zero latencies and doubling at every step. */
  lemma {:induction false} RunStaysInBounds(start: real, latencies: seq<real>)
    requires start >= 1.0
    requires forall i :: 0 <= i < |latencies| ==> latencies[i] >= 0.0
    ensures RunIntervals(start, Zeros(|latencies|)) <= RunIntervals(start, latencies)
    ensures RunIntervals(start, latencies) <= Geometric(start, 2.0, |latencies|)
    ensures RunIntervals(start, latencies) >= 1.0
  {
    hide NextInterval;
    var k := |latencies|;
    if latencies == [] {
      assert Zeros(0) == [];
    } else {
      var front, last := latencies[..k - 1], latencies[k - 1];
      RunStaysInBounds(start, front);
      ZeroLatencyRun(start, k - 1);
      assert Zeros(k)[..k - 1] == Zeros(k - 1);
      IntervalStaysInBounds(RunIntervals(start, front), last);
      IntervalIsMonotone(RunIntervals(start, Zeros(k - 1)), RunIntervals(start, front), 0.0, last);
    }
  }

  lemma ShrinkStep(x: real, m: real)
    requires x >= 0.0 && m >= 0.0
    ensures (x * 0.8) * (1.0 + 0.25 * (m + 1.0)) <= x * (1.0 + 0.25 * m)
  {
    assert (x * 0.8) * (1.0 + 0.25 * (m + 1.0)) == x * (1.0 + 0.2 * m);
    ScaleBetween(x, 1.0 + 0.2 * m, 1.0 + 0.2 * m, 1.0 + 0.25 * m);
  }

  lemma {:induction false} GeometricShrinks(start: real, k: nat)
    requires start >= 0.0
    ensures 0.0 <= Geometric(start, 0.8, k)
    ensures Geometric(start, 0.8, k) * (1.0 + 0.25 * k as real) <= start
  {
    if k > 0 {
      GeometricShrinks(start, k - 1);
      ShrinkStep(Geometric(start, 0.8, k - 1), (k - 1) as real);
    }
  }

  lemma AboveOne(x: real, n: real)
    requires x > 1.0 && n >= 1.0
    ensures x * n > n
  {
    assert x * n - n == (x - 1.0) * n;
  }

  lemma BelowOne(x: real, n: real, start: real)
    requires x * n <= start <= n && n >= 1.0
    ensures x <= 1.0
  {
    if x > 1.0 {
      AboveOne(x, n);
    }
  }

  /** From any interval the floor is reached within finitely many steps of zero latency. */
  lemma FloorIsReached(start: real, k: nat)
    requires start >= 1.0 && k as real >= 4.0 * (start - 1.0)
    ensures RunIntervals(start, Zeros(k)) == 1.0
  {
    ZeroLatencyRun(start, k);
    GeometricShrinks(start, k);
    BelowOne(Geometric(start, 0.8, k), 1.0 + 0.25 * k as real, start);
  }

  lemma {:induction false} GeometricFalls(start: real, a: nat, b: nat)
    requires start >= 0.0 && a <= b
    ensures 0.0 <= Geometric(start, 0.8, b) <= Geometric(start, 0.8, a)
    decreases b
  {
    if a < b {
      GeometricFalls(start, a, b - 1);
    } else if b > 0 {
      GeometricFalls(start, b - 1, b - 1);
    }
  }

  lemma FiveSteps(start: real, k: nat)
    ensures Geometric(start, 0.8, k + 5) == Geometric(start, 0.8, k) * 0.32768
  {
    assert Geometric(start, 0.8, k + 2) == Geometric(start, 0.8, k) * 0.64;
    assert Geometric(start, 0.8, k + 4) == Geometric(start, 0.8, k + 2) * 0.64;
  }

  /** From the start interval it takes thirty-one steps, and no fewer. */
  lemma FloorIsReachedIn31(k: nat)
    ensures RunIntervals(1000.0, Zeros(k)) == 1.0 <==> k >= 31
  {
    ZeroLatencyRun(1000.0, k);
    FiveSteps(1000.0, 0);
    FiveSteps(1000.0, 5);
    FiveSteps(1000.0, 10);
    FiveSteps(1000.0, 15);
    FiveSteps(1000.0, 20);
    FiveSteps(1000.0, 25);
    assert 1.2 < Geometric(1000.0, 0.8, 30) < 1.24;
    if k >= 31 {
      GeometricFalls(1000.0, 31, k);
    } else {
      GeometricFalls(1000.0, k, 30);
    }
  }

  // ----- silence

  /**
   The interval doubles for silence exactly when an order is sent, and none answered, while the report itself runs;
   the orders sent during the step do not matter. In every other case the controller acts on the average.
   */
  lemma SilenceIsNoticedIff(interval: real, average: real, lateSamples: nat, lateSends: nat)
    requires interval >= 1.0 && average >= 0.0
    ensures NextInterval(interval, EffectiveLatency(average, lateSamples, lateSends))
         == if average == 0.0 && lateSamples == 0 && lateSends > 0 then interval * 2.0
            else NextInterval(interval, average)
    ensures NextInterval(interval, 0.0) == Floored(interval * 0.8)
    ensures NextInterval(interval, EffectiveLatency(0.0, lateSamples, lateSends)) > interval
            <==> lateSamples == 0 && lateSends > 0
  {
    NextAtZero(interval);
    NextIntervalIs(interval, 5000000.0);
    IntervalFollowsLatency(interval, EffectiveLatency(0.0, lateSamples, lateSends));
  }

  // ----- the report itself

  function AddSamples(s: Stats, xs: seq<Sample>): Stats {
    if xs == [] then s else AddSample(AddSamples(s, xs[..|xs| - 1]), xs[|xs| - 1])
  }

  lemma {:induction false} AddSamplesKeepsInv(s: Stats, xs: seq<Sample>)
    requires StatsInv(s)
    requires forall i :: 0 <= i < |xs| ==> xs[i].rtt >= 0.0
    ensures StatsInv(AddSamples(s, xs))
    ensures AddSamples(s, xs).count == s.count + |xs| && AddSamples(s, xs).samples == s.samples + xs
  {
    hide StatsInv;
    if xs != [] {
      AddSamplesKeepsInv(s, xs[..|xs| - 1]);
      AddSampleKeepsInv(AddSamples(s, xs[..|xs| - 1]), xs[|xs| - 1]);
    }
  }

  lemma NoStatsInv()
    ensures StatsInv(NO_STATS)
  {
  }

  /** The highest occupancies seen, in percent, of the request, response, level-2 and level-3 rings. */
  datatype Peaks = Peaks(req: real, resp: real, l2: real, l3: real)

  const NO_PEAKS := Peaks(0.0, 0.0, 0.0, 0.0)

  function Higher(x: real, y: real): real {
    if y > x then y else x
  }

  function Raise(p: Peaks, q: Peaks): Peaks {
    Peaks(Higher(p.req, q.req), Higher(p.resp, q.resp), Higher(p.l2, q.l2), Higher(p.l3, q.l3))
  }

  /** Every ring keeps the higher of its own two readings. */
  lemma RaiseKeepsHigher(p: Peaks, q: Peaks)
    ensures var r := Raise(p, q);
            IsHigher(r.req, p.req, q.req) && IsHigher(r.resp, p.resp, q.resp) && IsHigher(r.l2, p.l2, q.l2)
            && IsHigher(r.l3, p.l3, q.l3)
  {
  }

  /** The numbers of one printed row. */
  datatype Row = Row(
    step: nat, interval: real, rate: real, average: real, p90: real, p99: real, max: real, peaks: Peaks)

  class StressTrader {
    const tracker: RttTracker
    var sentCount: nat
    var lastSentCount: nat
    var currentInterval: real
    var stepCounter: nat
    var stepStartTime: nat
    var peaks: Peaks
    /** The orders that the rows so far have reported. */
    ghost var reportedSends: nat

    /** Every order sent has been reported exactly once or is still to be reported. */
    ghost predicate Valid()
      reads this, tracker
    {
      reportedSends == lastSentCount <= sentCount && currentInterval >= 1.0 && StatsInv(tracker.Contents())
    }

    constructor ()
      ensures Valid() && fresh(tracker) && tracker.Contents() == NO_STATS
      ensures sentCount == lastSentCount == 0 && currentInterval == 1000.0 && stepCounter == 1
      ensures peaks == Peaks(0.0, 0.0, 0.0, 0.0)
    {
      tracker := new RttTracker();
      sentCount, lastSentCount, reportedSends, stepCounter, stepStartTime := 0, 0, 0, 1, 0;
      currentInterval, peaks := START_INTERVAL, NO_PEAKS;
      new;
      NoStatsInv();
    }

    /** The monitoring thread has sampled the rings. */
    method ObserveRings(seen: Peaks)
      modifies `peaks
      ensures peaks == Raise(old(peaks), seen)
      ensures IsHigher(peaks.req, old(peaks).req, seen.req) && IsHigher(peaks.resp, old(peaks).resp, seen.resp)
      ensures IsHigher(peaks.l2, old(peaks).l2, seen.l2) && IsHigher(peaks.l3, old(peaks).l3, seen.l3)
    {
      if seen.req > peaks.req { peaks := peaks.(req := seen.req); }
      if seen.resp > peaks.resp { peaks := peaks.(resp := seen.resp); }
      if seen.l2 > peaks.l2 { peaks := peaks.(l2 := seen.l2); }
      if seen.l3 > peaks.l3 { peaks := peaks.(l3 := seen.l3); }
    }

    /** What the other threads do between the report's two looks at the counters. */
    method RunOthers(lateSends: nat, late: seq<Sample>)
      modifies this`sentCount, tracker`samples, tracker`stepRttCount, tracker`stepRttSum, tracker`stepMaxRtt
      ensures sentCount == old(sentCount) + lateSends
      ensures tracker.Contents() == AddSamples(old(tracker.Contents()), late)
    {
      sentCount := sentCount + lateSends;
      for i := 0 to |late|
        invariant sentCount == old(sentCount) + lateSends
        invariant tracker.Contents() == AddSamples(old(tracker.Contents()), late[..i])
      {
        tracker.AccumulateRtt(late[i].execId, late[i].rtt);
        assert late[..i + 1][..i] == late[..i];
      }
      assert late[..|late|] == late;
    }

    /** The two percentiles of the row; the samples are sorted on the way. */
    method Percentiles(samples: seq<real>) returns (p90: real, p99: real)
      ensures p90 == Percentile(samples, 90) && p99 == Percentile(samples, 99)
    {
      p90, p99 := 0.0, 0.0;
      if samples != [] {
        SortSorts(samples);
        var rtts := Sort(samples);
        var i90, i99 := |rtts| * 90 / 100, |rtts| * 99 / 100;
        if i90 >= |rtts| { i90 := |rtts| - 1; }
        if i99 >= |rtts| { i99 := |rtts| - 1; }
        p90, p99 := rtts[i90], rtts[i99];
      }
    }

    /** The controller's step. */
    method AdjustInterval(latency: real)
      modifies `currentInterval
      ensures currentInterval == NextInterval(old(currentInterval), latency)
    {
      var adj := 0.0;
      if latency > TARGET {
        var overshoot := latency / TARGET;
        adj := 0.20 * overshoot;
        if adj > 1.0 { adj := 1.0; }
      } else {
        var headroom := (TARGET - latency) / TARGET;
        adj := -0.20 * headroom;
      }
      var next := currentInterval * (1.0 + adj);
      if next < 1.0 { next := 1.0; }
      currentInterval := next;
    }

    /** The step's numbers, taken and reset in one section. */
    method TakeStep() returns (step: Stats, seen: Peaks)
      modifies `peaks, tracker`samples, tracker`stepRttCount, tracker`stepRttSum, tracker`stepMaxRtt
      ensures step == old(tracker.Contents()) && tracker.Contents() == NO_STATS
      ensures seen == old(peaks) && peaks == NO_PEAKS
    {
      step := tracker.Drain();
      seen, peaks := peaks, NO_PEAKS;
    }

    /**
     The report of a step that lasted `elapsed` seconds. While it runs, `lateSends` orders go out, the samples
     `late` come in and the rings are seen as `lateRings`; `now` is the clock at its end.
     */
    method ReportStepRow(elapsed: real, lateSends: nat, late: seq<Sample>, lateRings: Peaks, now: nat)
        returns (row: Row)
      requires Valid() && elapsed > 0.0
      requires forall i :: 0 <= i < |late| ==> late[i].rtt >= 0.0
      modifies this, tracker`samples, tracker`stepRttCount, tracker`stepRttSum, tracker`stepMaxRtt
      ensures Valid()
      ensures row.step == old(stepCounter) * 10 && row.interval == old(currentInterval)
      ensures row.rate * elapsed == (reportedSends - old(reportedSends)) as real && reportedSends == old(sentCount)
      ensures IsAverage(row.average, old(tracker.Contents()).samples)
      ensures row.average == Average(old(tracker.Contents())) && row.max == old(tracker.Contents()).max
      ensures row.p90 == Percentile(Values(old(tracker.Contents()).samples), 90)
      ensures row.p99 == Percentile(Values(old(tracker.Contents()).samples), 99)
      ensures 0.0 <= row.p90 <= row.p99 <= row.max && 0.0 <= row.average <= row.max
      ensures row.peaks == old(peaks) && peaks == Raise(NO_PEAKS, lateRings)
      ensures currentInterval == NextInterval(old(currentInterval), EffectiveLatency(row.average, |late|, lateSends))
      ensures sentCount == old(sentCount) + lateSends
      ensures stepCounter == old(stepCounter) + 1 && stepStartTime == now
      ensures tracker.Contents() == AddSamples(NO_STATS, late)
    {
      hide StatsInv, Percentile, NextInterval, Raise, IsAverage, IsHigher;
      RowIsOrdered(tracker.Contents());
      AverageIsOfSamples(tracker.Contents());
      NoStatsInv();
      AddSamplesKeepsInv(NO_STATS, late);
      var sent := sentCount;
      var rate := (sent - lastSentCount) as real / elapsed;
      lastSentCount, reportedSends := sent, sent;
      var interval := currentInterval;
      var average := 0.0;
      var step, seen := TakeStep();
      if step.count > 0 {
        average := step.sum / step.count as real;
      }
      var p90, p99 := Percentiles(Values(step.samples));
      row := Row(stepCounter * 10, interval, rate, average, p90, p99, step.max, seen);

      RunOthers(lateSends, late);
      ObserveRings(lateRings);
      var latency := average;
      if latency == 0.0 && tracker.stepRttCount == 0 {
        if sentCount > lastSentCount {
          latency := TARGET * 5.0;
        }
      }
      IntervalStaysInBounds(interval, latency);
      AdjustInterval(latency);
      stepCounter := stepCounter + 1;
      stepStartTime := now;
    }
  }

  /** Orders have gone out. */
  method SendOrders(trader: StressTrader, orders: nat)
    requires trader.Valid()
    modifies trader`sentCount
    ensures trader.Valid() && trader.sentCount == old(trader.sentCount) + orders
  {
    trader.sentCount := trader.sentCount + orders;
  }

  /**
   The silent step: however many orders go out during a step and however long it lasts, without a single
   response, and with nothing going on while the report runs, the interval falls towards its floor.
   */
  method SilentStep(trader: StressTrader, orders: nat, elapsed: real, now: nat) returns (row: Row)
    requires trader.Valid() && trader.tracker.Contents() == NO_STATS && elapsed > 0.0
    modifies trader, trader.tracker
    ensures trader.Valid() && row.rate * elapsed >= orders as real && row.average == 0.0
    ensures trader.currentInterval == Floored(old(trader.currentInterval) * 0.8)
    ensures old(trader.currentInterval) > 1.0 ==> trader.currentInterval < old(trader.currentInterval)
  {
    SendOrders(trader, orders);
    row := trader.ReportStepRow(elapsed, 0, [], NO_PEAKS, now);
    SilenceIsNoticedIff(old(trader.currentInterval), 0.0, 0, 0);
  }
}
