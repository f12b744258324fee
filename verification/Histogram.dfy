/** Latency histogram of a session and the nearest-rank percentile read from it. */
module Histogram {

  /** Sum of the first n buckets. */
  function Below(h: seq<nat>, n: nat): nat
    requires n <= |h|
  {
    if n == 0 then 0 else Below(h, n - 1) + h[n - 1]
  }

  /** Recorded samples that fell into a bucket under n. */
  function CountBelow(samples: seq<nat>, n: nat): nat {
    if samples == [] then 0
    else CountBelow(samples[..|samples| - 1], n) + (if samples[|samples| - 1] < n then 1 else 0)
  }

  /** The histogram counts exactly the recorded samples. */
  ghost predicate Tallies(h: seq<nat>, samples: seq<nat>) {
    && (forall n {:trigger Below(h, n)} :: 0 <= n <= |h| ==> Below(h, n) == CountBelow(samples, n))
    && (forall i :: 0 <= i < |samples| ==> samples[i] < |h|)
  }

  lemma {:induction false} BelowAfterRecord(h: seq<nat>, b: nat, n: nat)
    requires b < |h| && n <= |h|
    ensures Below(h[b := h[b] + 1], n) == Below(h, n) + (if b < n then 1 else 0)
  {
    if n > 0 {
      BelowAfterRecord(h, b, n - 1);
    }
  }

  lemma TallyRecord(h: seq<nat>, samples: seq<nat>, b: nat)
    requires Tallies(h, samples) && b < |h|
    ensures Tallies(h[b := h[b] + 1], samples + [b])
  {
    var h', s' := h[b := h[b] + 1], samples + [b];
    assert s'[..|s'| - 1] == samples;
    forall n | 0 <= n <= |h'|
      ensures Below(h', n) == CountBelow(s', n)
    {
      BelowAfterRecord(h, b, n);
      assert Below(h, n) == CountBelow(samples, n);
    }
  }

  lemma {:induction false} CountAll(samples: seq<nat>, n: nat)
    requires forall i :: 0 <= i < |samples| ==> samples[i] < n
    ensures CountBelow(samples, n) == |samples|
  {
    if samples != [] {
      CountAll(samples[..|samples| - 1], n);
    }
  }

  lemma {:induction false} BelowZero(n: nat, size: nat)
    requires n <= size
    ensures Below(seq(size, _ => 0), n) == 0
  {
    if n > 0 {
      BelowZero(n - 1, size);
    }
  }

  lemma TallyEmpty(size: nat)
    ensures Tallies(seq(size, _ => 0), [])
  {
    var h: seq<nat> := seq(size, _ => 0);
    forall n | 0 <= n <= |h|
      ensures Below(h, n) == CountBelow([], n)
    {
      BelowZero(n, size);
    }
  }

  /** Ceiling of count * percent / 100. */
  function Rank(count: nat, percent: nat): nat {
    (count * percent + 99) / 100
  }

  /** The scan of the buckets from bucket i with `count` samples already passed. */
  function Scan(h: seq<nat>, target: nat, i: nat, count: nat): nat
    requires i <= |h|
    decreases |h| - i
  {
    if i == |h| then 10000100
    else if count + h[i] >= target then (i + 1) * 100
    else Scan(h, target, i + 1, count + h[i])
  }

  function Percentile(h: seq<nat>, count: nat, percent: nat): nat {
    var target := Rank(count, percent);
    if target == 0 then 0 else Scan(h, target, 0, 0)
  }

  /** The scan stops at the first bucket whose running total reaches the target. */
  lemma {:induction false} ScanFinds(h: seq<nat>, target: nat, i: nat) returns (b: nat)
    requires i < |h| && Below(h, i) < target <= Below(h, |h|)
    ensures i <= b < |h| && Below(h, b) < target <= Below(h, b + 1)
    ensures Scan(h, target, i, Below(h, i)) == (b + 1) * 100
    decreases |h| - i
  {
    if Below(h, i) + h[i] >= target {
      b := i;
    } else {
      b := ScanFinds(h, target, i + 1);
    }
  }

  /** Whatever rank is looked for, the scan ends in the bucket of the sample of that rank. */
  lemma RankIsFound(h: seq<nat>, samples: seq<nat>, target: nat) returns (b: nat)
    requires Tallies(h, samples) && 1 <= target <= |samples|
    ensures b < |h| && Scan(h, target, 0, 0) == (b + 1) * 100
    ensures CountBelow(samples, b) < target <= CountBelow(samples, b + 1)
  {
    CountAll(samples, |h|);
    assert Below(h, |h|) == |samples|;
    assert |h| > 0 by { assert samples[0] < |h|; }
    b := ScanFinds(h, target, 0);
    assert Below(h, b) == CountBelow(samples, b) && Below(h, b + 1) == CountBelow(samples, b + 1);
  }

  /**
   * The reported percentile of a non-empty sample set is the upper edge of the bucket that holds
   * the sample of nearest rank: fewer than Rank samples lie in lower buckets, and at least Rank
   * lie in this bucket or lower.  The value for an exhausted scan is never reached.
   */
  lemma PercentileIsNearestRank(h: seq<nat>, samples: seq<nat>, percent: nat) returns (b: nat)
    requires Tallies(h, samples) && samples != [] && 1 <= percent <= 100
    ensures b < |h| && Percentile(h, |samples|, percent) == (b + 1) * 100
    ensures CountBelow(samples, b) < Rank(|samples|, percent) <= CountBelow(samples, b + 1)
  {
    RankInRange(|samples|, percent);
    b := RankIsFound(h, samples, Rank(|samples|, percent));
  }

  /** The rank is the least number that is at least the given percentage of the count. */
  lemma RankIsLeast(count: nat, percent: nat)
    ensures 100 * Rank(count, percent) >= count * percent
    ensures forall r: nat :: 100 * r >= count * percent ==> Rank(count, percent) <= r
  {
    var n := count * percent;
    assert Rank(count, percent) == (n + 99) / 100;
  }

  lemma RankInRange(count: nat, percent: nat)
    requires count > 0 && 1 <= percent <= 100
    ensures 1 <= Rank(count, percent) <= count
  {
    assert count * percent >= 1;
    assert count * percent <= count * 100;
  }

  lemma RankMonotone(count: nat, p: nat, q: nat)
    requires p <= q
    ensures Rank(count, p) <= Rank(count, q)
  {
    assert count * p <= count * q;
  }

  lemma {:induction false} BelowMonotone(h: seq<nat>, i: nat, j: nat)
    requires i <= j <= |h|
    ensures Below(h, i) <= Below(h, j)
  {
    if i < j {
      BelowMonotone(h, i, j - 1);
    }
  }

  /** A higher percentage never reports a lower latency. */
  lemma PercentileMonotone(h: seq<nat>, samples: seq<nat>, p: nat, q: nat)
    requires Tallies(h, samples) && 1 <= p <= q <= 100
    ensures Percentile(h, |samples|, p) <= Percentile(h, |samples|, q)
  {
    if samples != [] {
      var i := PercentileIsNearestRank(h, samples, p);
      var j := PercentileIsNearestRank(h, samples, q);
      RankMonotone(|samples|, p, q);
      if j < i {
        BelowMonotone(h, j + 1, i);
        assert false;
      }
    }
  }
}
