/** Latency percentiles: the sink's nearest ranks and the stress example's integer index. */
module Percentiles {
  import opened Bits
  import opened Results

  // ----- Sorting -----

  predicate Sorted(s: seq<nat>) {
    forall i, j :: 0 <= i <= j < |s| ==> s[i] <= s[j]
  }

  /** How many samples are at most `v`. */
  function CountAtMost(s: seq<nat>, v: nat): (n: nat)
    ensures n <= |s|
  {
    if s == [] then 0 else (if s[0] <= v then 1 else 0) + CountAtMost(s[1..], v)
  }

  lemma {:induction false} CountConcat(a: seq<nat>, b: seq<nat>, v: nat)
    ensures CountAtMost(a + b, v) == CountAtMost(a, v) + CountAtMost(b, v)
    decreases |a|
  {
    if a == [] {
      assert a + b == b;
    } else {
      assert (a + b)[1..] == a[1..] + b;
      CountConcat(a[1..], b, v);
    }
  }

  lemma WithoutOne(s: seq<nat>, i: nat)
    requires i < |s|
    ensures multiset(s[..i] + s[i + 1..]) == multiset(s) - multiset{s[i]}
  {
    assert s == s[..i] + [s[i]] + s[i + 1..];
  }

  lemma CountWithout(s: seq<nat>, i: nat, v: nat)
    requires i < |s|
    ensures CountAtMost(s, v) == CountAtMost(s[..i] + s[i + 1..], v) + if s[i] <= v then 1 else 0
  {
    var rest := s[i + 1..];
    assert s == s[..i] + ([s[i]] + rest);
    CountConcat(s[..i], [s[i]] + rest, v);
    CountConcat([s[i]], rest, v);
    CountConcat(s[..i], rest, v);
    assert [s[i]][1..] == [];
  }

  /** Counting does not depend on the order of the samples. */
  lemma {:induction false} CountPermuted(a: seq<nat>, b: seq<nat>, v: nat)
    requires multiset(a) == multiset(b)
    ensures CountAtMost(a, v) == CountAtMost(b, v)
    decreases |a|
  {
    if a == [] {
      assert |multiset(b)| == 0;
    } else {
      assert a[0] in multiset(b);
      var i :| 0 <= i < |b| && b[i] == a[0];
      WithoutOne(a, 0);
      WithoutOne(b, i);
      assert a[..0] + a[1..] == a[1..];
      CountPermuted(a[1..], b[..i] + b[i + 1..], v);
      CountWithout(b, i, v);
    }
  }

  method Insert(x: nat, s: seq<nat>) returns (r: seq<nat>)
    requires Sorted(s)
    ensures Sorted(r) && multiset(r) == multiset(s) + multiset{x}
  {
    var i := 0;
    while i < |s| && s[i] < x
      invariant i <= |s| && forall k :: 0 <= k < i ==> s[k] < x
    {
      i := i + 1;
    }
    r := s[..i] + [x] + s[i..];
    InsertedSorts(x, s, i);
  }

  lemma InsertedSorts(x: nat, s: seq<nat>, i: nat)
    requires Sorted(s) && i <= |s| && (forall k :: 0 <= k < i ==> s[k] < x) && (i < |s| ==> x <= s[i])
    ensures var r := s[..i] + [x] + s[i..];
            Sorted(r) && multiset(r) == multiset(s) + multiset{x}
  {
    var r := s[..i] + [x] + s[i..];
    assert s == s[..i] + s[i..];
    forall a, b | 0 <= a < b < |r| ensures r[a] <= r[b] {
      if i < b {
        assert r[b] == s[b - 1];
        if i < a { assert r[a] == s[a - 1]; }
        if i < b - 1 && a == i { assert s[i] <= s[b - 1]; }
      }
    }
  }

  method Sort(samples: seq<nat>) returns (r: seq<nat>)
    ensures Sorted(r) && multiset(r) == multiset(samples)
  {
    r := [];
    for i := 0 to |samples|
      invariant Sorted(r) && multiset(r) == multiset(samples[..i])
    {
      r := Insert(samples[i], r);
      assert samples[..i + 1] == samples[..i] + [samples[i]];
    }
    assert samples[..|samples|] == samples;
  }

  lemma PermutedSize(a: seq<nat>, b: seq<nat>)
    requires multiset(a) == multiset(b)
    ensures |a| == |b|
  {
    assert |multiset(a)| == |a| && |multiset(b)| == |b|;
  }

  /** In a sorted sequence, more than `r` samples are at most the one at index `r`, and at most `r` are below it. */
  lemma {:induction false} CountSorted(s: seq<nat>, r: nat, v: nat)
    requires Sorted(s) && r < |s|
    ensures s[r] <= v ==> CountAtMost(s, v) >= r + 1
    ensures v < s[r] ==> CountAtMost(s, v) <= r
    decreases |s|
  {
    if r > 0 {
      CountSorted(s[1..], r - 1, v);
    } else if v < s[0] {
      CountNone(s, v);
    }
  }

  lemma {:induction false} CountNone(s: seq<nat>, v: nat)
    requires forall i :: 0 <= i < |s| ==> v < s[i]
    ensures CountAtMost(s, v) == 0
    decreases |s|
  {
    if s != [] {
      CountNone(s[1..], v);
    }
  }

  // ----- Nearest rank -----

  /** `v` is the least sample with at least the fraction `num / den` of all samples at or below it. */
  ghost predicate NearestRank(samples: seq<nat>, num: nat, den: nat, v: nat) {
    && v in samples && CountAtMost(samples, v) * den >= |samples| * num
    && forall u :: u in samples && u < v ==> CountAtMost(samples, u) * den < |samples| * num
  }

  /** The rank is the least count that reaches the fraction. */
  lemma RankIsLeast(n: nat, num: nat, den: nat, rank: nat, count: nat)
    requires den > 0 && rank == (n * num + den - 1) / den
    ensures count * den >= n * num <==> count >= rank
  {
    var t := n * num + den - 1;
    Divides(t, den);
    if count >= rank {
      MulMonotone(rank, count, den);
    } else {
      MulMonotone(count, rank - 1, den);
      Distributes(rank, -1, den);
    }
  }

  lemma RankInRange(n: nat, num: nat, den: nat, rank: nat)
    requires n > 0 && 0 < num <= den && rank == (n * num + den - 1) / den
    ensures 1 <= rank <= n
  {
    RankIsLeast(n, num, den, rank, n);
    RankIsLeast(n, num, den, rank, 0);
    MulMonotone(num, den, n);
    assert n * num > 0;
  }

  lemma SortedRank(samples: seq<nat>, sorted: seq<nat>, num: nat, den: nat, rank: nat)
    requires Sorted(sorted) && multiset(sorted) == multiset(samples)
    requires den > 0 && 1 <= rank <= |sorted| && rank == (|samples| * num + den - 1) / den
    ensures NearestRank(samples, num, den, sorted[rank - 1])
  {
    var v := sorted[rank - 1];
    assert v in multiset(sorted);
    CountSorted(sorted, rank - 1, v);
    CountPermuted(sorted, samples, v);
    RankIsLeast(|samples|, num, den, rank, CountAtMost(samples, v));
    forall u | u in samples && u < v
      ensures CountAtMost(samples, u) * den < |samples| * num
    {
      CountSorted(sorted, rank - 1, u);
      CountPermuted(sorted, samples, u);
      RankIsLeast(|samples|, num, den, rank, CountAtMost(samples, u));
    }
  }

  lemma NearestRankUnique(samples: seq<nat>, num: nat, den: nat, v: nat, w: nat)
    requires NearestRank(samples, num, den, v) && NearestRank(samples, num, den, w)
    ensures v == w
  {
  }

  /** A larger fraction never has a smaller percentile. */
  lemma NearestRankMonotone(samples: seq<nat>, num: nat, den: nat, v: nat, num': nat, den': nat, v': nat)
    requires NearestRank(samples, num, den, v) && NearestRank(samples, num', den', v')
    requires den > 0 && den' > 0 && num * den' <= num' * den
    ensures v <= v'
  {
    if v' < v {
      var n, c := |samples|, CountAtMost(samples, v');
      assert c * den < n * num && c * den' >= n * num';
      Contradictory(c, den, den', n, num, num');
    }
  }

  lemma Contradictory(c: nat, den: nat, den': nat, n: nat, num: nat, num': nat)
    requires den > 0 && den' > 0 && num * den' <= num' * den
    requires c * den < n * num
    ensures c * den' < n * num'
  {
    if c * den' >= n * num' {
      calc {
        n * (num * den');
      <= { MulMonotone(num * den', num' * den, n); }
        n * (num' * den);
      == { Regroups(n, num', den); }
        (n * num') * den;
      <= { MulMonotone(n * num', c * den', den); }
        (c * den') * den;
      == { Regroups(c, den', den); }
        (c * den) * den';
      <= { MulMonotone(c * den, n * num - 1, den'); }
        (n * num - 1) * den';
      == { Distributes(n * num, -1, den'); Regroups(n, num, den'); }
        n * (num * den') - den';
      }
      assert false;
    }
  }

  method Summarize(samples: seq<nat>) returns (d: Distribution)
    ensures d.samples == |samples|
    ensures samples == [] ==> d == Distribution(0, 0, 0, 0, 0, 0)
    ensures samples != [] ==>
              && NearestRank(samples, 50, 100, d.p50) && NearestRank(samples, 95, 100, d.p95)
              && NearestRank(samples, 99, 100, d.p99) && NearestRank(samples, 999, 1000, d.p999)
              && d.maximum in samples && forall u :: u in samples ==> u <= d.maximum
    ensures d.p50 <= d.p95 <= d.p99 <= d.p999 <= d.maximum
  {
    if samples == [] {
      return Distribution(0, 0, 0, 0, 0, 0);
    }
    hide NearestRank;
    var sorted := Sort(samples);
    PermutedSize(sorted, samples);
    var p50 := NearestRankOf(samples, sorted, 50, 100);
    var p95 := NearestRankOf(samples, sorted, 95, 100);
    var p99 := NearestRankOf(samples, sorted, 99, 100);
    var p999 := NearestRankOf(samples, sorted, 999, 1000);
    var maximum := sorted[|sorted| - 1];
    NearestRankMonotone(samples, 50, 100, p50, 95, 100, p95);
    NearestRankMonotone(samples, 95, 100, p95, 99, 100, p99);
    NearestRankMonotone(samples, 99, 100, p99, 999, 1000, p999);
    LastIsLargest(samples, sorted);
    RanksAreSamples(samples, 999, 1000, p999);
    d := Distribution(|samples|, p50, p95, p99, p999, maximum);
  }

  lemma RanksAreSamples(samples: seq<nat>, num: nat, den: nat, v: nat)
    requires NearestRank(samples, num, den, v)
    ensures v in samples
  {
  }

  lemma LastIsLargest(samples: seq<nat>, sorted: seq<nat>)
    requires Sorted(sorted) && multiset(sorted) == multiset(samples) && sorted != []
    ensures sorted[|sorted| - 1] in samples && forall u :: u in samples ==> u <= sorted[|sorted| - 1]
  {
    assert sorted[|sorted| - 1] in multiset(sorted);
    forall u | u in samples
      ensures u <= sorted[|sorted| - 1]
    {
      assert u in multiset(sorted);
    }
  }

  method NearestRankOf(samples: seq<nat>, sorted: seq<nat>, num: nat, den: nat) returns (v: nat)
    requires Sorted(sorted) && multiset(sorted) == multiset(samples) && samples != [] && 0 < num <= den
    ensures NearestRank(samples, num, den, v)
  {
    hide NearestRank;
    PermutedSize(sorted, samples);
    var count := |sorted|;
    var rank := (count * num + den - 1) / den;
    RankInRange(count, num, den, rank);
    SortedRank(samples, sorted, num, den, rank);
    v := sorted[rank - 1];
  }

  // ----- The stress example's index -----

  function PercentileIndex(n: nat, percent: nat): nat
    requires n > 0
  {
    var index := (percent * (n - 1)) / 100;
    if index >= n then n - 1 else index
  }

  method PercentileNs(latencies: seq<nat>, percent: nat) returns (v: nat)
    ensures latencies == [] ==> v == 0
    ensures latencies != [] ==>
              exists sorted: seq<nat> :: Sorted(sorted) && multiset(sorted) == multiset(latencies)
                                         && |sorted| == |latencies|
                                         && v == sorted[PercentileIndex(|latencies|, percent)]
  {
    if latencies == [] {
      return 0;
    }
    var sorted := Sort(latencies);
    PermutedSize(sorted, latencies);
    var n := |sorted|;
    var index := (percent * (n - 1)) / 100;
    if index >= n {
      index := n - 1;
    }
    v := sorted[index];
  }

  /** The index is the nearest rank's or the one before it. */
  lemma IndexNearRank(n: nat, percent: nat, rank: nat)
    requires n > 0 && 1 <= percent <= 100 && rank == (n * percent + 99) / 100
    ensures 1 <= rank <= n
    ensures PercentileIndex(n, percent) == rank - 1 || PercentileIndex(n, percent) + 1 == rank - 1
    ensures PercentileIndex(n, percent) == rank - 1 <==> percent * (n - 1) >= 100 * (rank - 1)
  {
    RankInRange(n, percent, 100, rank);
    Distributes(n, -1, percent);
    assert percent * (n - 1) == n * percent - percent;
  }

  /** The example's percentile is never above the nearest-rank value, and nothing but the sample just before it in
      order can separate the two. */
  lemma PercentileBelowNearestRank(latencies: seq<nat>, sorted: seq<nat>, percent: nat, v: nat)
    requires latencies != [] && Sorted(sorted) && multiset(sorted) == multiset(latencies) && |sorted| == |latencies|
    requires 1 <= percent <= 100 && NearestRank(latencies, percent, 100, v)
    ensures var i := PercentileIndex(|latencies|, percent);
            sorted[i] <= v && (sorted[i] == v || (i + 1 < |sorted| && sorted[i + 1] == v))
  {
    hide NearestRank;
    var n := |latencies|;
    var rank := (n * percent + 99) / 100;
    IndexNearRank(n, percent, rank);
    SortedRank(latencies, sorted, percent, 100, rank);
    NearestRankUnique(latencies, percent, 100, v, sorted[rank - 1]);
  }
}
