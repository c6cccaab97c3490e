/**
 The latency histogram: 128 geometric buckets up to one hour, filled by binary search, kept whole or in
 eight shards, and read by quantile. Latencies are nanoseconds; quantile arguments are reals.
 */
module Histogram {
  import opened Permutations

  const BUCKETS := 128
  const SHARDS := 8
  const MICROSECOND := 1_000
  const HOUR := 3_600_000_000_000

  // ---------------------------------------------------------------- bucket bounds

  function NextBound(bound: nat): nat {
    var next := bound + (bound + 6) / 7;
    if next <= bound || next >= HOUR then HOUR else next
  }

  /** Bound `i` of the geometric part, counting from one microsecond. */
  function Geometric(i: nat): (b: nat)
    ensures MICROSECOND <= b <= HOUR
  {
    if i == 0 then MICROSECOND else NextBound(Geometric(i - 1))
  }

  function UpperBound(i: nat): nat {
    if i == 0 then 0 else if i < BUCKETS - 1 then Geometric(i - 1) else HOUR
  }

  function Bounds(): (b: seq<nat>)
    ensures |b| == BUCKETS
  {
    seq(BUCKETS, i requires 0 <= i => UpperBound(i))
  }

  method BuildBounds() returns (bounds: array<nat>)
    ensures fresh(bounds) && bounds[..] == Bounds()
  {
    hide NextBound;
    bounds := new nat[BUCKETS];
    bounds[0] := 0;
    var bound := MICROSECOND;
    for i := 1 to BUCKETS - 1
      invariant bound == Geometric(i - 1)
      invariant forall j :: 0 <= j < i ==> bounds[j] == UpperBound(j)
    {
      bounds[i] := bound;
      bound := NextBound(bound);
    }
    bounds[BUCKETS - 1] := HOUR;
  }

  lemma {:induction false} BoundsAscend(i: nat, j: nat)
    requires i <= j
    ensures UpperBound(i) <= UpperBound(j)
    decreases j
  {
    if i < j {
      BoundsAscend(i, j - 1);
      if 1 < j < BUCKETS - 1 {
        assert Geometric(j - 1) == NextBound(Geometric(j - 2));
      }
    }
  }

  /** Bucket `i` holds `x`: the first whose bound reaches it, or the last bucket. */
  predicate IsBucket(x: nat, i: nat) {
    i < BUCKETS && (i < BUCKETS - 1 ==> x <= UpperBound(i)) && (i > 0 ==> UpperBound(i - 1) < x)
  }

  function BucketFrom(x: nat, i: nat): (b: nat)
    requires i < BUCKETS && (i > 0 ==> UpperBound(i - 1) < x)
    ensures IsBucket(x, b)
    decreases BUCKETS - i
  {
    if i == BUCKETS - 1 || x <= UpperBound(i) then i else BucketFrom(x, i + 1)
  }

  function Bucket(x: nat): (b: nat)
    ensures IsBucket(x, b)
  {
    BucketFrom(x, 0)
  }

  lemma BucketsAscend(x: nat, i: nat, y: nat, j: nat)
    requires IsBucket(x, i) && IsBucket(y, j) && x <= y
    ensures i <= j
  {
    hide UpperBound;
    if j < i {
      BoundsAscend(j, i - 1);
    }
  }

  method BucketIndex(bounds: array<nat>, nanos: nat) returns (i: nat)
    requires bounds[..] == Bounds()
    ensures i == Bucket(nanos)
  {
    hide UpperBound, BucketFrom;
    var lo, hi := 0, bounds.Length - 1;
    assert forall k :: 0 <= k < BUCKETS ==> bounds[k] == Bounds()[k] == UpperBound(k);
    while lo < hi
      invariant 0 <= lo <= hi < BUCKETS
      invariant lo > 0 ==> UpperBound(lo - 1) < nanos
      invariant hi < BUCKETS - 1 ==> nanos <= UpperBound(hi)
    {
      var mid := lo + (hi - lo) / 2;
      if nanos <= bounds[mid] {
        hi := mid;
      } else {
        lo := mid + 1;
      }
    }
    i := lo;
    BucketsAscend(nanos, i, nanos, Bucket(nanos));
    BucketsAscend(nanos, Bucket(nanos), nanos, i);
  }

  /** Rounding a latency up to its bucket's bound: safe up to an hour, and tight in the geometric part. */
  lemma RoundingBound(x: nat)
    ensures x <= UpperBound(Bucket(x)) <==> x <= HOUR
    ensures MICROSECOND < x <= UpperBound(BUCKETS - 2) ==> UpperBound(Bucket(x)) <= x + (x + 6) / 7
  {
    hide BucketFrom;
    var b := Bucket(x);
    if b < BUCKETS - 1 {
      BoundsAscend(b, BUCKETS - 1);
    }
    if MICROSECOND < x <= UpperBound(BUCKETS - 2) {
      assert UpperBound(0) == 0 && UpperBound(1) == MICROSECOND;
      assert 1 < b < BUCKETS - 1;
      assert UpperBound(b) == NextBound(UpperBound(b - 1));
      NextBoundIsClose(UpperBound(b - 1), x);
    }
  }

  lemma NextBoundIsClose(b: nat, x: nat)
    requires 1 <= b < x
    ensures NextBound(b) <= x + (x + 6) / 7
  {
    assert (b + 6) / 7 <= (x + 6) / 7;
  }

  /** Each bound of the geometric part is at least a seventh above the one before, until the hour cuts it off. */
  lemma BoundsGrow(i: nat)
    requires 1 <= i < BUCKETS - 2
    ensures UpperBound(i + 1) == HOUR || 7 * UpperBound(i + 1) >= 8 * UpperBound(i)
  {
    var b := UpperBound(i);
    assert UpperBound(i + 1) == NextBound(b);
    assert 7 * ((b + 6) / 7) >= b;
  }

  // ---------------------------------------------------------------- counting samples

  datatype Test = AtMost(x: nat) | Below(x: nat) | In(bucket: nat) | UpTo(bucket: nat)

  predicate Passes(t: Test, y: nat) {
    match t
    case AtMost(x) => y <= x
    case Below(x) => y < x
    case In(b) => Bucket(y) == b
    case UpTo(b) => Bucket(y) <= b
  }

  function Count(t: Test, samples: seq<nat>): (n: nat)
    ensures n <= |samples|
  {
    if samples == [] then 0
    else Count(t, samples[..|samples| - 1]) + if Passes(t, samples[|samples| - 1]) then 1 else 0
  }

  lemma {:induction false} CountMonotone(t: Test, u: Test, samples: seq<nat>)
    requires forall y :: Passes(t, y) ==> Passes(u, y)
    ensures Count(t, samples) <= Count(u, samples)
  {
    if samples != [] {
      CountMonotone(t, u, samples[..|samples| - 1]);
    }
  }

  lemma {:induction false} CountNextBucket(b: nat, samples: seq<nat>)
    ensures Count(UpTo(b + 1), samples) == Count(UpTo(b), samples) + Count(In(b + 1), samples)
    ensures Count(UpTo(0), samples) == Count(In(0), samples)
  {
    if samples != [] {
      CountNextBucket(b, samples[..|samples| - 1]);
    }
  }

  lemma {:induction false} CountAll(samples: seq<nat>)
    ensures Count(UpTo(BUCKETS - 1), samples) == |samples|
  {
    if samples != [] {
      CountAll(samples[..|samples| - 1]);
    }
  }

  /** `x` is the sample of rank `k`: fewer than `k` samples lie below it and at least `k` do not lie above. */
  predicate IsRank(samples: seq<nat>, k: nat, x: nat) {
    x in samples && Count(Below(x), samples) < k <= Count(AtMost(x), samples)
  }

  /** The bucket the scan stops in is the bucket of the ranked sample. */
  lemma RankedBucket(samples: seq<nat>, k: nat, x: nat, b: nat)
    requires IsRank(samples, k, x)
    requires Count(UpTo(b), samples) >= k && (b > 0 ==> Count(UpTo(b - 1), samples) < k)
    ensures b == Bucket(x)
  {
    hide Bucket, IsBucket, Count;
    forall y: nat | y <= x
      ensures Bucket(y) <= Bucket(x)
    {
      BucketsAscend(y, Bucket(y), x, Bucket(x));
    }
    forall y: nat | x <= y
      ensures Bucket(x) <= Bucket(y)
    {
      BucketsAscend(x, Bucket(x), y, Bucket(y));
    }
    CountMonotone(AtMost(x), UpTo(Bucket(x)), samples);
    if b > Bucket(x) {
      CountMonotone(UpTo(Bucket(x)), UpTo(b - 1), samples);
    }
    if b < Bucket(x) {
      CountMonotone(UpTo(b), Below(x), samples);
    }
  }

  lemma NoRank(samples: seq<nat>, k: nat)
    requires Count(UpTo(BUCKETS - 1), samples) < k
    ensures forall x :: !IsRank(samples, k, x)
  {
    CountAll(samples);
  }

  /** Every rank has a sample. */
  lemma {:induction false} RankExists(samples: seq<nat>, k: nat, top: nat) returns (x: nat)
    requires 1 <= k <= Count(AtMost(top), samples)
    ensures IsRank(samples, k, x)
    decreases top
  {
    NoneBetween(samples, top);
    if top > 0 && k <= Count(AtMost(top - 1), samples) {
      x := RankExists(samples, k, top - 1);
    } else {
      x := top;
    }
  }

  lemma {:induction false} NoneBetween(samples: seq<nat>, x: nat)
    ensures Count(Below(x), samples) == if x == 0 then 0 else Count(AtMost(x - 1), samples)
    ensures x !in samples ==> Count(Below(x), samples) == Count(AtMost(x), samples)
  {
    if samples != [] {
      NoneBetween(samples[..|samples| - 1], x);
    }
  }

  // ---------------------------------------------------------------- quantiles

  lemma ScaledWithin(p: real, total: real)
    requires 0.0 <= p <= 1.0 && total >= 0.0
    ensures 0.0 <= p * total <= total
  {
    assert (1.0 - p) * total >= 0.0;
  }

  function Share(q: real): (p: real)
    ensures 0.0 <= p <= 1.0 && (0.0 <= q <= 1.0 ==> p == q) && (q < 0.0 ==> p == 0.0) && (q > 1.0 ==> p == 1.0)
  {
    if q <= 0.0 then 0.0 else if q > 1.0 then 1.0 else q
  }

  /** The target rank: the least positive one above the share of the samples less a billionth. */
  function Target(q: real, total: nat): (k: nat)
    ensures total > 0 ==> 1 <= k <= total
    ensures k >= 1 && k as real > Share(q) * total as real - 0.000000001
    ensures k == 1 || (k - 1) as real <= Share(q) * total as real - 0.000000001
  {
    var p := Share(q);
    var scaled := p * total as real;
    ScaledWithin(p, total as real);
    var k := (scaled + 0.999999999).Floor;
    if k == 0 then 1 else k
  }

  /** The quantile of recorded samples: the bound of the bucket that holds the sample of the target rank. */
  ghost predicate IsQuantile(samples: seq<nat>, q: real, r: nat) {
    && (samples == [] ==> r == 0)
    && forall x :: IsRank(samples, Target(q, |samples|), x) ==> r == UpperBound(Bucket(x))
  }

  ghost predicate Tallies(counts: seq<nat>, samples: seq<nat>) {
    |counts| == BUCKETS && forall b :: 0 <= b < BUCKETS ==> counts[b] == Count(In(b), samples)
  }

  /** The scan of the merged buckets. */
  method Scan(bounds: array<nat>, buckets: array<nat>, total: nat, q: real, ghost samples: seq<nat>) returns (r: nat)
    requires bounds[..] == Bounds() && Tallies(buckets[..], samples) && total == |samples| > 0
    ensures IsQuantile(samples, q, r)
  {
    hide Count, Target, UpperBound, IsBucket;
    var target := Target(q, total);
    var seen := 0;
    for i := 0 to BUCKETS
      invariant i == 0 ==> seen == 0
      invariant i > 0 ==> seen == Count(UpTo(i - 1), samples)
      invariant seen < target
    {
      assert buckets[i] == buckets[..][i] == Count(In(i), samples);
      CountNextBucket(if i == 0 then 0 else i - 1, samples);
      seen := seen + buckets[i];
      if seen >= target {
        r := bounds[i];
        assert bounds[..][i] == Bounds()[i];
        forall x | IsRank(samples, target, x)
          ensures Bucket(x) == i
        {
          RankedBucket(samples, target, x, i);
        }
        return;
      }
    }
    r := bounds[BUCKETS - 1];
    NoRank(samples, target);
  }

  /** Samples recorded in another order, or in other shards, have the same quantiles. */
  lemma QuantileIsUnique(a: seq<nat>, b: seq<nat>, q: real, r: nat, r': nat)
    requires multiset(a) == multiset(b) && IsQuantile(a, q, r) && IsQuantile(b, q, r')
    ensures r == r'
  {
    SameLength(a, b);
    if a != [] {
      var k, top := Target(q, |a|), Largest(a);
      AllAtMost(a, top);
      var x := RankExists(a, k, top);
      CountIgnoresOrder(Below(x), a, b);
      CountIgnoresOrder(AtMost(x), a, b);
      assert x in multiset(b);
      assert IsRank(b, k, x);
    }
  }

  function Largest(s: seq<nat>): (m: nat)
    ensures forall i :: 0 <= i < |s| ==> s[i] <= m
  {
    if s == [] then 0
    else
      var n := |s| - 1;
      var rest := Largest(s[..n]);
      if s[n] > rest then s[n] else rest
  }

  lemma {:induction false} AllAtMost(samples: seq<nat>, top: nat)
    requires forall i :: 0 <= i < |samples| ==> samples[i] <= top
    ensures Count(AtMost(top), samples) == |samples|
  {
    if samples != [] {
      AllAtMost(samples[..|samples| - 1], top);
    }
  }

  lemma {:induction false} CountWithout(t: Test, s: seq<nat>, i: nat)
    requires i < |s|
    ensures Count(t, s) == Count(t, Without(s, i)) + if Passes(t, s[i]) then 1 else 0
  {
    hide Passes, Without;
    var n := |s| - 1;
    if i == n {
      WithoutLast(s);
    } else {
      CountWithout(t, s[..n], i);
      WithoutThenLast(s, i);
    }
  }

  lemma {:induction false} CountIgnoresOrder(t: Test, a: seq<nat>, b: seq<nat>)
    requires multiset(a) == multiset(b)
    ensures Count(t, a) == Count(t, b)
    decreases |a|
  {
    hide Passes;
    SameLength(a, b);
    if a != [] {
      var j := Matching(a, 0, b);
      CountIgnoresOrder(t, Without(a, 0), Without(b, j));
      CountWithout(t, a, 0);
      CountWithout(t, b, j);
    }
  }

  /**
   The error bound: with `x` the exact sample of the target rank, the reported quantile is no smaller
   exactly when `x` is at most an hour, and overshoots by at most a seventh in the geometric part.
   */
  lemma QuantileBound(samples: seq<nat>, q: real, r: nat, x: nat)
    requires IsQuantile(samples, q, r) && IsRank(samples, Target(q, |samples|), x)
    ensures x <= r <==> x <= HOUR
    ensures MICROSECOND < x <= UpperBound(BUCKETS - 2) ==> r <= x + (x + 6) / 7
  {
    RoundingBound(x);
  }

  function Clipped(sample: int): (n: nat)
    ensures n >= sample && (n == 0 || n == sample)
  {
    if sample < 0 then 0 else sample
  }

  class LatencyHistogram {
    const bounds: array<nat>
    var count: nat
    const buckets: array<nat>
    ghost var samples: seq<nat>

    ghost predicate Valid()
      reads this, bounds, buckets
    {
      bounds != buckets && bounds[..] == Bounds() && Tallies(buckets[..], samples) && count == |samples|
    }

    constructor ()
      ensures Valid() && fresh(bounds) && fresh(buckets) && samples == []
    {
      var built := BuildBounds();
      bounds, buckets := built, new nat[BUCKETS](_ => 0);
      count, samples := 0, [];
    }

    method Record(sample: int)
      requires Valid()
      modifies this, buckets
      ensures Valid() && samples == old(samples) + [Clipped(sample)]
    {
      hide Bounds, Bucket;
      var idx := BucketIndex(bounds, Clipped(sample));
      TallyMore(buckets[..], samples, Clipped(sample));
      buckets[idx] := buckets[idx] + 1;
      count, samples := count + 1, samples + [Clipped(sample)];
      assert buckets[..] == old(buckets[..])[idx := old(buckets[..])[idx] + 1];
    }

    method Quantile(q: real) returns (r: nat)
      requires Valid()
      ensures IsQuantile(samples, q, r)
    {
      if count == 0 {
        return 0;
      }
      r := Scan(bounds, buckets, count, q, samples);
    }

    method Reset()
      requires Valid()
      modifies this, buckets
      ensures Valid() && samples == []
    {
      for i := 0 to BUCKETS
        invariant forall j :: 0 <= j < i ==> buckets[j] == 0
        invariant bounds[..] == Bounds()
      {
        buckets[i] := 0;
      }
      count, samples := 0, [];
    }
  }

  lemma TallyMore(counts: seq<nat>, samples: seq<nat>, x: nat)
    requires Tallies(counts, samples)
    ensures Tallies(counts[Bucket(x) := counts[Bucket(x)] + 1], samples + [x])
  {
    hide Bucket;
    assert (samples + [x])[..|samples|] == samples;
  }

  // ---------------------------------------------------------------- shards

  /** The counters of all shards, row by row. */
  ghost function Grid(shards: array2<nat>): (rows: seq<seq<nat>>)
    reads shards
    ensures |rows| == shards.Length0
    ensures forall i :: 0 <= i < |rows| ==> |rows[i]| == shards.Length1
    ensures forall i, j :: 0 <= i < shards.Length0 && 0 <= j < shards.Length1 ==> rows[i][j] == shards[i, j]
  {
    seq(shards.Length0, i requires 0 <= i < shards.Length0 reads shards =>
      seq(shards.Length1, j requires 0 <= j < shards.Length1 reads shards => shards[i, j]))
  }

  ghost predicate Wide(rows: seq<seq<nat>>) {
    forall i :: 0 <= i < |rows| ==> |rows[i]| == BUCKETS
  }

  /** The first `n` shards' counts of one bucket, added up. */
  ghost function Column(rows: seq<seq<nat>>, b: nat, n: nat): nat
    requires n <= |rows| && b < BUCKETS && Wide(rows)
  {
    if n == 0 then 0 else Column(rows, b, n - 1) + rows[n - 1][b]
  }

  ghost function Total(counts: seq<nat>): nat {
    if counts == [] then 0 else Total(counts[..|counts| - 1]) + counts[|counts| - 1]
  }

  lemma {:induction false} TotalMore(counts: seq<nat>, s: nat)
    requires s < |counts|
    ensures Total(counts[s := counts[s] + 1]) == Total(counts) + 1
  {
    var n := |counts| - 1;
    var more := counts[s := counts[s] + 1];
    if s == n {
      assert more[..n] == counts[..n];
    } else {
      TotalMore(counts[..n], s);
      assert more[..n] == counts[..n][s := counts[s] + 1];
    }
  }

  lemma {:induction false} ColumnMore(rows: seq<seq<nat>>, s: nat, idx: nat, b: nat, n: nat)
    requires Wide(rows) && s < |rows| && idx < BUCKETS && b < BUCKETS && n <= |rows|
    ensures Column(rows[s := rows[s][idx := rows[s][idx] + 1]], b, n)
         == Column(rows, b, n) + if b == idx && s < n then 1 else 0
  {
    if n > 0 {
      ColumnMore(rows, s, idx, b, n - 1);
    }
  }

  class ShardedHistogram {
    const bounds: array<nat>
    const counts: array<nat>
    const shards: array2<nat>
    ghost var samples: seq<nat>

    ghost predicate Valid()
      reads this, bounds, counts, shards
    {
      && bounds != counts && bounds[..] == Bounds()
      && counts.Length == shards.Length0 == SHARDS && shards.Length1 == BUCKETS
      && (forall b :: 0 <= b < BUCKETS ==> Column(Grid(shards), b, SHARDS) == Count(In(b), samples))
      && Total(counts[..]) == |samples|
    }

    constructor ()
      ensures Valid() && fresh(bounds) && fresh(counts) && fresh(shards) && samples == []
    {
      var built := BuildBounds();
      bounds, counts := built, new nat[SHARDS](_ => 0);
      shards := new nat[SHARDS, BUCKETS]((_, _) => 0);
      samples := [];
      new;
      AllZero(counts[..]);
      forall b | 0 <= b < BUCKETS
        ensures Column(Grid(shards), b, SHARDS) == 0
      {
        ColumnZero(Grid(shards), b, SHARDS);
      }
    }

    /** Records into whichever shard the process-wide sequence picks. */
    method Record(sample: int, shard: nat)
      requires Valid() && shard < SHARDS
      modifies this, counts, shards
      ensures Valid() && samples == old(samples) + [Clipped(sample)]
    {
      hide Bounds, Bucket, Column, Total, Count, Grid;
      ghost var rows := Grid(shards);
      var idx := BucketIndex(bounds, Clipped(sample));
      shards[shard, idx] := shards[shard, idx] + 1;
      TotalMore(counts[..], shard);
      counts[shard] := counts[shard] + 1;
      assert counts[..] == old(counts[..])[shard := old(counts[shard]) + 1];
      SameGrid(shards, rows[shard := rows[shard][idx := rows[shard][idx] + 1]]);
      forall b | 0 <= b < BUCKETS
        ensures Column(Grid(shards), b, SHARDS) == Count(In(b), old(samples) + [Clipped(sample)])
      {
        ColumnMore(rows, shard, idx, b, SHARDS);
        CountMore(In(b), samples, Clipped(sample));
      }
      samples := samples + [Clipped(sample)];
    }

    /** The quantile does not depend on which shards the samples went to. */
    method Quantile(q: real) returns (r: nat)
      requires Valid()
      ensures IsQuantile(samples, q, r)
    {
      var merged, total := Merge();
      if total == 0 {
        return 0;
      }
      r := Scan(bounds, merged, total, q, samples);
    }

    method Merge() returns (merged: array<nat>, total: nat)
      requires Valid()
      ensures fresh(merged) && Tallies(merged[..], samples) && total == |samples|
    {
      hide Bounds, Column, Total, Count, Grid;
      ghost var rows := Grid(shards);
      merged := new nat[BUCKETS](_ => 0);
      total := 0;
      ColumnsStart(rows, counts[..]);
      for i := 0 to SHARDS
        invariant total == Total(counts[..i])
        invariant forall b :: 0 <= b < BUCKETS ==> merged[b] == Column(rows, b, i)
      {
        total := total + counts[i];
        TotalNext(counts[..], i);
        for b := 0 to BUCKETS
          invariant forall j :: 0 <= j < b ==> merged[j] == Column(rows, j, i + 1)
          invariant forall j :: b <= j < BUCKETS ==> merged[j] == Column(rows, j, i)
        {
          ColumnNext(rows, b, i);
          merged[b] := merged[b] + shards[i, b];
        }
      }
      assert counts[..SHARDS] == counts[..];
    }
  }

  lemma SameGrid(shards: array2<nat>, rows: seq<seq<nat>>)
    requires |rows| == shards.Length0 && forall i :: 0 <= i < |rows| ==> |rows[i]| == shards.Length1
    requires forall i, j :: 0 <= i < shards.Length0 && 0 <= j < shards.Length1 ==> rows[i][j] == shards[i, j]
    ensures Grid(shards) == rows
  {
    hide Grid;
    forall i | 0 <= i < |rows|
      ensures Grid(shards)[i] == rows[i]
    {
      assert forall j :: 0 <= j < shards.Length1 ==> Grid(shards)[i][j] == shards[i, j];
    }
  }

  lemma {:induction false} AllZero(counts: seq<nat>)
    requires forall i :: 0 <= i < |counts| ==> counts[i] == 0
    ensures Total(counts) == 0
  {
    if counts != [] {
      AllZero(counts[..|counts| - 1]);
    }
  }

  lemma {:induction false} ColumnZero(rows: seq<seq<nat>>, b: nat, n: nat)
    requires Wide(rows) && n <= |rows| && b < BUCKETS
    requires forall i, j :: 0 <= i < |rows| && 0 <= j < |rows[i]| ==> rows[i][j] == 0
    ensures Column(rows, b, n) == 0
  {
    if n > 0 {
      ColumnZero(rows, b, n - 1);
    }
  }

  lemma ColumnsStart(rows: seq<seq<nat>>, counts: seq<nat>)
    requires Wide(rows)
    ensures forall b :: 0 <= b < BUCKETS ==> Column(rows, b, 0) == 0
    ensures Total(counts[..0]) == 0
  {
  }

  lemma ColumnNext(rows: seq<seq<nat>>, b: nat, n: nat)
    requires Wide(rows) && n < |rows| && b < BUCKETS
    ensures Column(rows, b, n + 1) == Column(rows, b, n) + rows[n][b]
  {
  }

  lemma TotalNext(counts: seq<nat>, n: nat)
    requires n < |counts|
    ensures Total(counts[..n + 1]) == Total(counts[..n]) + counts[n]
  {
    assert counts[..n + 1][..n] == counts[..n];
  }

  lemma CountMore(t: Test, samples: seq<nat>, x: nat)
    ensures Count(t, samples + [x]) == Count(t, samples) + if Passes(t, x) then 1 else 0
  {
    assert (samples + [x])[..|samples|] == samples;
  }
}
