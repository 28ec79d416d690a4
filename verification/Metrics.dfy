/** The running averages: an integer one for HTTP requests, an exact one for provider latencies. */
module Metrics {
  import opened Statistics

  // ---------- the integer mean ----------

  function Total(ms: seq<nat>): nat {
    if ms == [] then 0 else Total(ms[..|ms| - 1]) + ms[|ms| - 1]
  }

  /** The update of the collector, after `count` has been incremented. */
  function NextMean(mean: nat, count: nat, ms: nat): nat
    requires count > 0
  {
    NonNegative(mean, count - 1, ms, count);
    (mean * (count - 1) + ms) / count
  }

  lemma NonNegative(mean: nat, k: nat, ms: nat, count: nat)
    requires count > 0
    ensures (mean * k + ms) / count >= 0
  {
    assert mean * k >= 0;
  }

  function Mean(samples: seq<nat>): nat {
    if samples == [] then 0 else NextMean(Mean(samples[..|samples| - 1]), |samples|, samples[|samples| - 1])
  }

  lemma MeanStep(mean: nat, n: nat, ms: nat, total: nat)
    requires 0 <= total - n * mean && 2 * (total - n * mean) <= n * (n - 1)
    ensures var next := NextMean(mean, n + 1, ms);
      0 <= total + ms - (n + 1) * next && 2 * (total + ms - (n + 1) * next) <= (n + 1) * n
    ensures mean * n + ms <= total + ms
  {
    var sum := mean * n + ms;
    var next := NextMean(mean, n + 1, ms);
    assert next == sum / (n + 1);
    assert sum == (n + 1) * next + sum % (n + 1);
    assert 0 <= sum % (n + 1) <= n;
    assert n * mean == mean * n;
    assert (n + 1) * n == n * (n - 1) + 2 * n;
  }

  /**
   Truncation only ever loses: after n samples the average undercounts their sum, by at most
   n(n-1)/2 in all. So no intermediate product exceeds the sum of the samples.
   */
  lemma {:induction false} MeanDrift(samples: seq<nat>)
    ensures var n, gap := |samples|, Total(samples) - |samples| * Mean(samples);
      0 <= gap && 2 * gap <= n * (n - 1)
    ensures samples != [] ==>
              Mean(samples[..|samples| - 1]) * (|samples| - 1) + samples[|samples| - 1] <= Total(samples)
  {
    if samples != [] {
      var front := samples[..|samples| - 1];
      MeanDrift(front);
      MeanStep(Mean(front), |front|, samples[|samples| - 1], Total(front));
    }
  }

  lemma NextMeanIs(mean: nat, count: nat, ms: nat)
    requires count > 0
    ensures (mean * (count - 1) + ms) / count == NextMean(mean, count, ms)
  {
  }

  lemma MeanOfMore(samples: seq<nat>, ms: nat)
    ensures Mean(samples + [ms]) == NextMean(Mean(samples), |samples| + 1, ms)
  {
    assert (samples + [ms])[..|samples|] == samples;
  }

  class MetricsCollector {
    var requestCount: nat
    var requestDurationMs: nat

    constructor ()
      ensures requestCount == 0 && requestDurationMs == Mean([])
    {
      requestCount, requestDurationMs := 0, 0;
    }

    method RecordRequest(ms: nat, ghost samples: seq<nat>)
      requires requestCount == |samples| && requestDurationMs == Mean(samples)
      modifies this
      ensures requestCount == |samples| + 1 && requestDurationMs == Mean(samples + [ms])
    {
      requestCount := requestCount + 1;
      var count := if requestCount > 1 then requestCount else 1;
      NextMeanIs(requestDurationMs, count, ms);
      requestDurationMs := (requestDurationMs * (count - 1) + ms) / count;
      MeanOfMore(samples, ms);
    }
  }

  // ---------- concurrent requests ----------

  /** The four atomic steps of a request: count it, load the mean, load the count, store the new mean. */
  datatype Step = Count | LoadMean | LoadCount | Store

  datatype Event = Event(request: nat, step: Step)

  /** The two shared atomics, and what each request has loaded. */
  datatype Shared = Shared(count: nat, mean: nat, means: map<nat, nat>, counts: map<nat, nat>)

  function AtLeastOne(n: nat): (m: nat)
    ensures m > 0
  {
    if n > 1 then n else 1
  }

  function Loaded(m: map<nat, nat>, request: nat): nat {
    if request in m then m[request] else 0
  }

  function Take(s: Shared, e: Event, ms: nat): Shared {
    match e.step
    case Count => s.(count := s.count + 1)
    case LoadMean => s.(means := s.means[e.request := s.mean])
    case LoadCount => s.(counts := s.counts[e.request := AtLeastOne(s.count)])
    case Store => s.(mean := NextMean(Loaded(s.means, e.request), AtLeastOne(Loaded(s.counts, e.request)), ms))
  }

  /** The shared state after these steps of requests that all take the same time. */
  function TakeAll(s: Shared, run: seq<Event>, ms: nat): Shared
    decreases |run|
  {
    if run == [] then s else TakeAll(Take(s, run[0], ms), run[1..], ms)
  }

  /** A request whose steps are not interrupted makes the update of `MetricsCollector.RecordRequest`. */
  lemma UninterruptedIsNextMean(s: Shared, r: nat, ms: nat)
    ensures var t := Take(Take(Take(Take(s, Event(r, Count), ms), Event(r, LoadMean), ms), Event(r, LoadCount), ms),
                          Event(r, Store), ms);
      t.count == s.count + 1 && t.mean == NextMean(s.mean, s.count + 1, ms)
  {
  }

  /** Two requests, each counted and with the mean loaded before either stores. */
  function Overlap(): seq<Event> {
    [Event(0, Count), Event(1, Count), Event(0, LoadMean), Event(1, LoadMean), Event(0, LoadCount), Event(1, LoadCount),
     Event(0, Store), Event(1, Store)]
  }

  /**
   The bound is for requests one after the other. Overlapping, the first two leave half of their time
   as the mean, so the gap grows with the time they take, where `MeanDrift` allows one.
   */
  lemma OverlapLosesHalf(ms: nat)
    ensures var t := TakeAll(Shared(0, 0, map[], map[]), Overlap(), ms);
      t.count == 2 && t.mean == ms / 2 && Total([ms, ms]) - 2 * t.mean >= ms
  {
    var run := Overlap();
    var s := Shared(0, 0, map[], map[]);
    var s4 := Shared(2, 0, map[][0 := 0][1 := 0], map[][0 := 2][1 := 2]);
    Overlapped(s, run, ms, s4);
    assert NextMean(0, 2, ms) == ms / 2;
    assert [ms, ms][..1] == [ms] && [ms][..0] == [];
  }

  lemma Overlapped(s: Shared, run: seq<Event>, ms: nat, loaded: Shared)
    requires s == Shared(0, 0, map[], map[]) && run == Overlap()
    requires loaded == Shared(2, 0, map[][0 := 0][1 := 0], map[][0 := 2][1 := 2])
    ensures TakeAll(s, run, ms) == loaded.(mean := NextMean(0, 2, ms))
  {
    var s1, s2 := s.(count := 1), s.(count := 2);
    var m1 := s2.(means := map[][0 := 0]);
    var m2 := s2.(means := map[][0 := 0][1 := 0]);
    var c1 := m2.(counts := map[][0 := 2]);
    assert TakeAll(s, run, ms) == TakeAll(s1, run[1..], ms);
    assert run[1..][1..] == run[2..] && TakeAll(s1, run[1..], ms) == TakeAll(s2, run[2..], ms);
    assert run[2..][1..] == run[3..] && TakeAll(s2, run[2..], ms) == TakeAll(m1, run[3..], ms);
    assert run[3..][1..] == run[4..] && TakeAll(m1, run[3..], ms) == TakeAll(m2, run[4..], ms);
    assert run[4..][1..] == run[5..] && TakeAll(m2, run[4..], ms) == TakeAll(c1, run[5..], ms);
    assert run[5..][1..] == run[6..] && TakeAll(c1, run[5..], ms) == TakeAll(loaded, run[6..], ms);
    var half := loaded.(mean := NextMean(0, 2, ms));
    assert run[6..][1..] == run[7..] && TakeAll(loaded, run[6..], ms) == TakeAll(half, run[7..], ms);
    assert run[7..][1..] == [] && TakeAll(half, run[7..], ms) == TakeAll(half, [], ms);
  }

  // ---------- provider latencies ----------

  predicate Ascending(s: seq<real>) {
    forall i, j :: 0 <= i < j < |s| ==> s[i] <= s[j]
  }

  function Insert(x: real, s: seq<real>): (r: seq<real>)
    ensures |r| == |s| + 1
  {
    if s == [] || x <= s[0] then [x] + s else [s[0]] + Insert(x, s[1..])
  }

  function Sorted(s: seq<real>): (r: seq<real>)
    ensures |r| == |s|
  {
    if s == [] then [] else Insert(s[0], Sorted(s[1..]))
  }

  lemma PrependAscends(x: real, s: seq<real>)
    requires Ascending(s) && forall k :: 0 <= k < |s| ==> x <= s[k]
    ensures Ascending([x] + s)
  {
  }

  lemma {:induction false} InsertAscends(x: real, s: seq<real>)
    requires Ascending(s)
    ensures Ascending(Insert(x, s))
  {
    if s != [] && x > s[0] {
      var rest := Insert(x, s[1..]);
      InsertAscends(x, s[1..]);
      InsertMembers(x, s[1..]);
      forall k | 0 <= k < |rest| ensures s[0] <= rest[k] {
        assert rest[k] in rest;
      }
      PrependAscends(s[0], rest);
    } else {
      PrependAscends(x, s);
    }
  }

  lemma {:induction false} InsertMembers(x: real, s: seq<real>)
    ensures multiset(Insert(x, s)) == multiset{x} + multiset(s)
    ensures forall y :: y in Insert(x, s) <==> y == x || y in s
  {
    if s != [] && x > s[0] {
      InsertMembers(x, s[1..]);
      assert s == [s[0]] + s[1..];
    }
  }

  lemma {:induction false} SortedAscends(s: seq<real>)
    ensures Ascending(Sorted(s)) && multiset(Sorted(s)) == multiset(s)
  {
    if s != [] {
      SortedAscends(s[1..]);
      InsertAscends(s[0], Sorted(s[1..]));
      InsertMembers(s[0], Sorted(s[1..]));
      assert s == [s[0]] + s[1..];
    }
  }

  /** The rank read for a share of the sample: truncated, and never past the end. */
  function Rank(len: nat, share: real): int {
    var r := (len as real * share).Floor;
    if r < len - 1 then r else len - 1
  }

  /** The largest place at or below that share, which for a proper share is never past the end. */
  lemma RankMeans(len: nat, share: real)
    requires len > 0 && 0.0 <= share < 1.0
    ensures 0 <= Rank(len, share) < len
    ensures Rank(len, share) as real <= len as real * share < Rank(len, share) as real + 1.0
  {
    ShareIsLess(len as real, share);
  }

  lemma ShareIsLess(n: real, share: real)
    requires n > 0.0 && 0.0 <= share < 1.0
    ensures 0.0 <= n * share < n
  {
    assert n * (1.0 - share) > 0.0;
  }

  const WINDOW := 1000

  /** The last thousand samples, or all of them while there are no more. */
  lemma LastWindowMeans(all: seq<real>)
    ensures var w := LastWindow(all);
      |w| == (if |all| < 1000 then |all| else 1000) && all[|all| - |w|..] == w
  {
  }

  function LastWindow(all: seq<real>): seq<real> {
    if |all| <= WINDOW then all else all[|all| - WINDOW..]
  }

  /** Pushing a sample and dropping the oldest of an overfull vector keeps the last thousand. */
  lemma PushWindow(all: seq<real>, x: real)
    ensures var pushed := LastWindow(all) + [x];
      LastWindow(all + [x]) == if |pushed| > WINDOW then pushed[1..] else pushed
  {
  }

  function AtMost(s: seq<real>, p: real): nat {
    if s == [] then 0 else AtMost(s[1..], p) + if s[0] <= p then 1 else 0
  }

  function AtLeast(s: seq<real>, p: real): nat {
    if s == [] then 0 else AtLeast(s[1..], p) + if s[0] >= p then 1 else 0
  }

  /** An element of the sample: at least r + 1 of them are no greater, and at least |s| - r no smaller. */
  ghost predicate HasRank(s: seq<real>, p: real, r: int) {
    p in s && AtMost(s, p) >= r + 1 && AtLeast(s, p) >= |s| - r
  }

  lemma {:induction false} InsertCounts(x: real, s: seq<real>, p: real)
    ensures AtMost(Insert(x, s), p) == AtMost(s, p) + if x <= p then 1 else 0
    ensures AtLeast(Insert(x, s), p) == AtLeast(s, p) + if x >= p then 1 else 0
  {
    if s != [] && x > s[0] {
      InsertCounts(x, s[1..], p);
      assert Insert(x, s)[1..] == Insert(x, s[1..]);
    } else {
      assert ([x] + s)[1..] == s;
    }
  }

  lemma {:induction false} SortedCounts(s: seq<real>, p: real)
    ensures AtMost(Sorted(s), p) == AtMost(s, p) && AtLeast(Sorted(s), p) == AtLeast(s, p)
  {
    if s != [] {
      SortedCounts(s[1..], p);
      InsertCounts(s[0], Sorted(s[1..]), p);
    }
  }

  lemma {:induction false} AscendingCounts(s: seq<real>, p: real, r: int)
    requires Ascending(s) && -1 <= r < |s|
    requires forall k :: 0 <= k <= r ==> s[k] <= p
    requires forall k :: r <= k < |s| && k >= 0 ==> s[k] >= p
    ensures AtMost(s, p) >= r + 1 && AtLeast(s, p) >= if r == -1 then |s| else |s| - r
  {
    if s != [] {
      if r <= 0 {
        AscendingCounts(s[1..], p, -1);
      } else {
        assert forall k :: 0 <= k < |s| - 1 ==> s[1..][k] == s[k + 1];
        AscendingCounts(s[1..], p, r - 1);
      }
    }
  }

  /** The element at place r of the sorted sample has rank r in the sample. */
  lemma SortedRank(s: seq<real>, r: nat)
    requires r < |s|
    ensures HasRank(s, Sorted(s)[r], r)
  {
    SortedMember(s, r);
    SortedCounts(s, Sorted(s)[r]);
    AscendingRank(Sorted(s), r);
  }

  lemma SortedMember(s: seq<real>, r: nat)
    requires r < |s|
    ensures Ascending(Sorted(s)) && Sorted(s)[r] in s
  {
    SortedAscends(s);
    assert Sorted(s)[r] in multiset(Sorted(s));
  }

  lemma AscendingRank(s: seq<real>, r: nat)
    requires Ascending(s) && r < |s|
    ensures AtMost(s, s[r]) >= r + 1 && AtLeast(s, s[r]) >= |s| - r
  {
    AscendingCounts(s, s[r], r);
  }

  /** The shares of the sample: half, and 95 and 99 in a hundred, cut off at the last element. */
  ghost predicate ArePercentiles(latencies: seq<real>, p50: real, p95: real, p99: real) {
    && latencies != []
    && p50 <= p95 <= p99
    && HasRank(latencies, p50, |latencies| / 2)
    && HasRank(latencies, p95, Rank(|latencies|, 0.95))
    && HasRank(latencies, p99, Rank(|latencies|, 0.99))
  }

  /** More than the share of the sample is no greater, and at least the rest no smaller. */
  lemma PercentilesMean(latencies: seq<real>, p50: real, p95: real, p99: real)
    requires ArePercentiles(latencies, p50, p95, p99)
    ensures var n := |latencies| as real;
      && AtMost(latencies, p95) as real > n * 0.95 && AtLeast(latencies, p95) as real >= n - n * 0.95
      && AtMost(latencies, p99) as real > n * 0.99 && AtLeast(latencies, p99) as real >= n - n * 0.99
    ensures 2 * AtMost(latencies, p50) > |latencies| && 2 * AtLeast(latencies, p50) >= |latencies|
    ensures p50 in latencies && p95 in latencies && p99 in latencies
  {
    RankMeans(|latencies|, 0.95);
    RankMeans(|latencies|, 0.99);
  }

  method Percentiles(latencies: seq<real>) returns (p50: real, p95: real, p99: real)
    requires latencies != []
    ensures ArePercentiles(latencies, p50, p95, p99)
  {
    var sorted := Sorted(latencies);
    SortedAscends(latencies);
    var len := |sorted|;
    RanksAscend(len);
    p50 := sorted[len / 2];
    p95 := sorted[Rank(len, 0.95)];
    p99 := sorted[Rank(len, 0.99)];
    SortedRank(latencies, len / 2);
    SortedRank(latencies, Rank(len, 0.95));
    SortedRank(latencies, Rank(len, 0.99));
  }

  /** Three tenths of a cent for a thousand tokens. */
  function Price(tokens: nat): real {
    tokens as real * 0.000003
  }

  lemma PriceOfThousands(k: nat)
    ensures Price(1000 * k) == k as real * 0.003
  {
    assert (1000 * k) as real == 1000.0 * k as real;
  }

  lemma PriceAdds(a: nat, b: nat)
    ensures Price(a + b) == Price(a) + b as real / 1000.0 * 0.003
  {
    assert (a + b) as real == a as real + b as real;
  }

  class ProviderMetrics {
    var totalRequests: nat
    var lastLatency: real
    var avgLatency: real
    var p50: real
    var p95: real
    var p99: real
    var totalTokens: nat
    var estimatedCost: real
    var latencies: seq<real>
    ghost var all: seq<real>
    ghost var tokens: seq<nat>

    ghost predicate Valid()
      reads this
    {
      && totalRequests == |all| == |tokens|
      && totalTokens == Total(tokens) && estimatedCost == Price(totalTokens)
      && IsMean(avgLatency, all)
      && latencies == LastWindow(all)
      && (all != [] ==> lastLatency == all[|all| - 1] && ArePercentiles(latencies, p50, p95, p99))
    }

    constructor ()
      ensures Valid() && all == [] && tokens == []
    {
      totalTokens, estimatedCost, tokens := 0, 0.0, [];
      totalRequests, lastLatency, avgLatency, p50, p95, p99, latencies, all := 0, 0.0, 0.0, 0.0, 0.0, 0.0, [], [];
    }

    method CountTokens(used: nat)
      requires totalTokens == Total(tokens) && estimatedCost == Price(totalTokens)
      modifies this`totalTokens, this`estimatedCost, this`tokens
      ensures totalTokens == Total(tokens) && estimatedCost == Price(totalTokens)
      ensures tokens == old(tokens) + [used]
    {
      assert (tokens + [used])[..|tokens|] == tokens;
      tokens := tokens + [used];
      PriceAdds(totalTokens, used);
      totalTokens := totalTokens + used;
      estimatedCost := estimatedCost + used as real / 1000.0 * 0.003;
    }

    /** The average stays the exact mean of all samples; percentiles are read from the last thousand. */
    method RecordRequest(latency: real, used: nat)
      requires Valid()
      modifies this
      ensures Valid() && all == old(all) + [latency] && tokens == old(tokens) + [used]
    {
      CountTokens(used);
      UpdateAverage(latency);
      PushLatency(latency);
      all := all + [latency];
      p50, p95, p99 := Percentiles(latencies);
    }

    method UpdateAverage(latency: real)
      requires totalRequests == |all| && IsMean(avgLatency, all)
      modifies this`totalRequests, this`lastLatency, this`avgLatency
      ensures totalRequests == |all| + 1 && lastLatency == latency && IsMean(avgLatency, all + [latency])
    {
      RunningMean(avgLatency, all, latency);
      totalRequests := totalRequests + 1;
      lastLatency := latency;
      avgLatency := NextAverage(avgLatency, totalRequests, latency);
    }

    method PushLatency(latency: real)
      requires latencies == LastWindow(all)
      modifies this`latencies
      ensures latencies == LastWindow(all + [latency]) && latencies != []
    {
      PushWindow(all, latency);
      latencies := latencies + [latency];
      if |latencies| > WINDOW {
        latencies := latencies[1..];
      }
    }
  }

  lemma RanksAscend(len: nat)
    requires len > 0
    ensures 0 <= len / 2 <= Rank(len, 0.95) <= Rank(len, 0.99) < len
  {
    var half := (len / 2) as real;
    assert half <= len as real * 0.95;
  }

  function NextAverage(mean: real, count: nat, x: real): real
    requires count > 0
  {
    mean + (x - mean) / count as real
  }

  /** `mean` stands for the average of `all`: their product with the count is the sum. */
  ghost predicate IsMean(mean: real, all: seq<real>) {
    mean * |all| as real == Sum(all)
  }

  lemma RunningMean(mean: real, all: seq<real>, x: real)
    requires IsMean(mean, all)
    ensures IsMean(NextAverage(mean, |all| + 1, x), all + [x])
  {
    assert (all + [x])[..|all|] == all;
    MeanAlgebra(mean, |all| as real, x, (|all| + 1) as real);
  }

  lemma MeanAlgebra(mean: real, n: real, x: real, m: real)
    requires m == n + 1.0 && m > 0.0
    ensures (mean + (x - mean) / m) * m == mean * n + x
  {
    var share := (x - mean) / m;
    assert share * m == x - mean;
    assert mean * m == mean * n + mean;
  }
}
