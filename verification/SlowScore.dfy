/**
 Slow scoring: method samples are folded per endpoint, then every endpoint of a service is scored
 against the median latency, the median absolute deviation and the average error and retransmit
 rates of its service. Durations are nanoseconds; rates and scores are reals.
 */
module SlowScore {
  import opened Basics
  import opened Permutations

  datatype Sample = Sample(
    service: string,
    instanceId: string,
    address: string,
    epoch: string,
    rpc: string,
    requests: int,
    errors: int,
    timeouts: int,
    inflight: int,
    capacity: int,
    latencyEwma: int,
    latencyP95: int,
    retransmits: int,
    connectErrors: int)

  datatype Key = Key(service: string, instanceId: string)

  function KeyOf(s: Sample): Key {
    Key(s.service, s.instanceId)
  }

  function Larger(a: int, b: int): int {
    if b > a then b else a
  }

  /** Counts add up, capacity and latency keep the largest value. */
  function Aggregate(current: Sample, sample: Sample): Sample {
    Sample(
      current.service,
      current.instanceId,
      if current.address == "" then sample.address else current.address,
      if current.epoch == "" then sample.epoch
      else if sample.epoch != "" && current.epoch != sample.epoch then "" else current.epoch,
      if current.rpc != "" && sample.rpc != "" && current.rpc != sample.rpc then "" else current.rpc,
      current.requests + sample.requests,
      current.errors + sample.errors,
      current.timeouts + sample.timeouts,
      current.inflight + sample.inflight,
      Larger(current.capacity, sample.capacity),
      Larger(current.latencyEwma, sample.latencyEwma),
      Larger(current.latencyP95, sample.latencyP95),
      current.retransmits + sample.retransmits,
      current.connectErrors + sample.connectErrors)
  }

  /** The numbers of a sample that reach a score. */
  datatype Load = Load(requests: int, errors: int, inflight: int, capacity: int, latencyP95: int, networkEvents: int)

  function LoadOf(s: Sample): Load {
    Load(s.requests, s.errors, s.inflight, s.capacity, s.latencyP95, s.retransmits + s.connectErrors)
  }

  function LoadsOf(samples: map<Key, Sample>): map<Key, Load> {
    map k | k in samples :: LoadOf(samples[k])
  }

  function Folded(folded: map<Key, Sample>, s: Sample): map<Key, Sample> {
    if s.service == "" || s.instanceId == "" then folded
    else folded[KeyOf(s) := if KeyOf(s) in folded then Aggregate(folded[KeyOf(s)], s) else s]
  }

  function FoldedAll(samples: seq<Sample>): map<Key, Sample> {
    if samples == [] then map[] else Folded(FoldedAll(samples[..|samples| - 1]), samples[|samples| - 1])
  }

  // ---------------------------------------------------------------- what folding adds up

  datatype Count = Requests | Errors | Inflight | NetworkEvents

  function CountOf(c: Count, s: Sample): int {
    match c
    case Requests => s.requests
    case Errors => s.errors
    case Inflight => s.inflight
    case NetworkEvents => s.retransmits + s.connectErrors
  }

  /** The samples of a report that are about one endpoint. */
  function SamplesOf(samples: seq<Sample>, k: Key): (own: seq<Sample>)
    ensures forall s :: s in own <==> s in samples && s.service == k.service && s.instanceId == k.instanceId
  {
    if samples == [] then []
    else
      var n := |samples| - 1;
      assert samples == samples[..n] + [samples[n]];
      SamplesOf(samples[..n], k) + if KeyOf(samples[n]) == k then [samples[n]] else []
  }

  function Total(c: Count, samples: seq<Sample>): int {
    if samples == [] then 0 else Total(c, samples[..|samples| - 1]) + CountOf(c, samples[|samples| - 1])
  }

  /** Counts are the sums over the samples; capacity and latency are the largest reported. */
  ghost predicate AddsUp(samples: seq<Sample>, l: Load) {
    && l.requests == Total(Requests, samples) && l.errors == Total(Errors, samples)
    && l.inflight == Total(Inflight, samples) && l.networkEvents == Total(NetworkEvents, samples)
    && (forall s :: s in samples ==> s.capacity <= l.capacity && s.latencyP95 <= l.latencyP95)
    && (exists s :: s in samples && s.capacity == l.capacity) && (exists s :: s in samples && s.latencyP95 == l.latencyP95)
  }

  lemma OneMoreAddsUp(samples: seq<Sample>, current: Sample, s: Sample)
    requires samples != [] ==> AddsUp(samples, LoadOf(current))
    ensures AddsUp(samples + [s], LoadOf(if samples == [] then s else Aggregate(current, s)))
  {
    var all := samples + [s];
    assert all[..|all| - 1] == samples && all[|all| - 1] == s;
    assert s in all;
    if samples != [] {
      var c :| c in samples && c.capacity == current.capacity;
      var p :| p in samples && p.latencyP95 == current.latencyP95;
      assert c in all && p in all;
    }
  }

  /** An endpoint is folded exactly when a named sample is about it, and its load adds up those samples. */
  lemma {:induction false} FoldAddsUp(samples: seq<Sample>, k: Key)
    ensures k in FoldedAll(samples) <==> k.service != "" && k.instanceId != "" && SamplesOf(samples, k) != []
    ensures k in FoldedAll(samples) ==> AddsUp(SamplesOf(samples, k), LoadOf(FoldedAll(samples)[k]))
  {
    hide AddsUp, Aggregate, LoadOf;
    if samples != [] {
      var n := |samples| - 1;
      var last, before, own := samples[n], FoldedAll(samples[..n]), SamplesOf(samples[..n], k);
      FoldAddsUp(samples[..n], k);
      assert SamplesOf(samples, k) == if KeyOf(last) == k then own + [last] else own;
      if KeyOf(last) == k && k.service != "" && k.instanceId != "" {
        OneMoreAddsUp(own, if own != [] then before[k] else last, last);
        assert FoldedAll(samples)[k] == if own == [] then last else Aggregate(before[k], last);
      }
    }
  }

  function FirstAddress(samples: seq<Sample>): string {
    if samples == [] then "" else if samples[0].address != "" then samples[0].address else FirstAddress(samples[1..])
  }

  function LastEpoch(samples: seq<Sample>): string {
    if samples == [] then ""
    else
      var n := |samples| - 1;
      if samples[n].epoch != "" then samples[n].epoch else LastEpoch(samples[..n])
  }

  predicate NoEpochBut(samples: seq<Sample>, epoch: string) {
    forall s :: s in samples ==> s.epoch == "" || s.epoch == epoch
  }

  /** Which registration a folded load is taken to come from. */
  ghost predicate Identifies(samples: seq<Sample>, h: Sample)
    requires samples != []
  {
    && h.address == FirstAddress(samples)
    && (forall epoch :: NoEpochBut(samples, epoch)
          ==> h.epoch == if exists s :: s in samples && s.epoch == epoch then epoch else "")
    && (h.epoch == "" || h.epoch == LastEpoch(samples))
    && h.rpc == if forall s :: s in samples ==> s.rpc == "" || s.rpc == samples[0].rpc then samples[0].rpc else ""
  }

  lemma {:induction false} FirstAddressMore(samples: seq<Sample>, s: Sample)
    ensures FirstAddress(samples + [s]) == if FirstAddress(samples) != "" then FirstAddress(samples) else s.address
  {
    if samples != [] {
      FirstAddressMore(samples[1..], s);
      assert (samples + [s])[1..] == samples[1..] + [s];
    }
  }

  lemma LastEpochMore(samples: seq<Sample>, s: Sample)
    ensures LastEpoch(samples + [s]) == if s.epoch != "" then s.epoch else LastEpoch(samples)
  {
    assert (samples + [s])[..|samples|] == samples;
  }

  lemma OneMoreIdentifies(samples: seq<Sample>, current: Sample, s: Sample)
    requires samples != [] ==> Identifies(samples, current)
    ensures Identifies(samples + [s], if samples == [] then s else Aggregate(current, s))
  {
    hide FirstAddress, LastEpoch;
    FirstAddressMore(samples, s);
    LastEpochMore(samples, s);
    var all := samples + [s];
    assert s in all && forall x :: x in all <==> x in samples || x == s;
    if samples == [] {
      NothingGiven();
    } else {
      forall epoch | NoEpochBut(all, epoch)
        ensures NoEpochBut(samples, epoch)
      {
      }
    }
  }

  lemma NothingGiven()
    ensures FirstAddress([]) == "" == LastEpoch([])
  {
  }

  /**
   The identity a folded sample carries: the first address given, the epoch if all that are given agree
   and otherwise none or the last one, and the method only while no sample names another.
   */
  lemma {:induction false} FoldIdentifies(samples: seq<Sample>, k: Key)
    requires k in FoldedAll(samples)
    ensures SamplesOf(samples, k) != [] && Identifies(SamplesOf(samples, k), FoldedAll(samples)[k])
  {
    hide Identifies, Aggregate;
    var n := |samples| - 1;
    var last, before, own := samples[n], FoldedAll(samples[..n]), SamplesOf(samples[..n], k);
    FoldAddsUp(samples[..n], k);
    if k in before {
      FoldIdentifies(samples[..n], k);
    }
    assert SamplesOf(samples, k) == if KeyOf(last) == k then own + [last] else own;
    if KeyOf(last) == k {
      OneMoreIdentifies(own, if own != [] then before[k] else last, last);
    }
  }

  // ---------------------------------------------------------------- order of the samples

  function Combine(a: Load, b: Load): Load {
    Load(a.requests + b.requests, a.errors + b.errors, a.inflight + b.inflight,
         Larger(a.capacity, b.capacity), Larger(a.latencyP95, b.latencyP95), a.networkEvents + b.networkEvents)
  }

  function FoldedLoad(loads: map<Key, Load>, s: Sample): map<Key, Load> {
    if s.service == "" || s.instanceId == "" then loads
    else loads[KeyOf(s) := if KeyOf(s) in loads then Combine(loads[KeyOf(s)], LoadOf(s)) else LoadOf(s)]
  }

  lemma LoadsOfFolded(folded: map<Key, Sample>, s: Sample)
    ensures LoadsOf(Folded(folded, s)) == FoldedLoad(LoadsOf(folded), s)
  {
  }

  lemma LoadsCommute(loads: map<Key, Load>, s: Sample, t: Sample)
    ensures FoldedLoad(FoldedLoad(loads, s), t) == FoldedLoad(FoldedLoad(loads, t), s)
  {
  }

  /** Any sample can be folded last. */
  lemma {:induction false} FoldLast(samples: seq<Sample>, i: nat)
    requires i < |samples|
    ensures LoadsOf(FoldedAll(samples)) == FoldedLoad(LoadsOf(FoldedAll(Without(samples, i))), samples[i])
  {
    hide Folded, FoldedLoad, LoadsOf, Without;
    var n := |samples| - 1;
    var s, x, y := samples[..n], samples[n], samples[i];
    var rest := Without(samples, i);
    LoadsOfFolded(FoldedAll(s), x);
    if i == n {
      WithoutLast(samples);
    } else {
      FoldLast(s, i);
      WithoutThenLast(samples, i);
      LoadsOfFolded(FoldedAll(Without(s, i)), x);
      LoadsCommute(LoadsOf(FoldedAll(Without(s, i))), y, x);
    }
  }

  /** Reordering the samples of a report changes no number of any endpoint. */
  lemma {:induction false} LoadsIgnoreOrder(a: seq<Sample>, b: seq<Sample>)
    requires multiset(a) == multiset(b)
    ensures LoadsOf(FoldedAll(a)) == LoadsOf(FoldedAll(b))
    decreases |a|
  {
    hide Folded, FoldedLoad, LoadsOf;
    SameLength(a, b);
    if a != [] {
      var j := Matching(a, 0, b);
      LoadsIgnoreOrder(Without(a, 0), Without(b, j));
      FoldLast(a, 0);
      FoldLast(b, j);
    }
  }

  // ---------------------------------------------------------------- medians and sums

  function Inserted(x: real, s: seq<real>): (r: seq<real>)
    ensures multiset(r) == multiset(s) + multiset{x}
  {
    if s == [] then [x]
    else if x <= s[0] then [x] + s
    else
      assert s == [s[0]] + s[1..];
      [s[0]] + Inserted(x, s[1..])
  }

  function Sorted(s: seq<real>): (r: seq<real>)
    ensures multiset(r) == multiset(s) && |r| == |s|
  {
    if s == [] then []
    else
      assert s == [s[0]] + s[1..];
      var r := Inserted(s[0], Sorted(s[1..]));
      assert |r| == |multiset(r)| == |multiset(s)| == |s|;
      r
  }

  predicate Ascending(s: seq<real>) {
    forall i, j :: 0 <= i <= j < |s| ==> s[i] <= s[j]
  }

  lemma {:induction false} InsertedAscends(x: real, s: seq<real>)
    requires Ascending(s)
    ensures Ascending(Inserted(x, s))
  {
    if s != [] && x > s[0] {
      InsertedAscends(x, s[1..]);
      var r := Inserted(x, s[1..]);
      forall j | 0 <= j < |r|
        ensures s[0] <= r[j]
      {
        InsertedMember(x, s[1..], j);
      }
      PrependAscends(s[0], r);
    }
  }

  lemma InsertedMember(x: real, s: seq<real>, j: nat)
    requires j < |Inserted(x, s)|
    ensures Inserted(x, s)[j] == x || Inserted(x, s)[j] in s
  {
    hide Inserted;
    assert Inserted(x, s)[j] in multiset(Inserted(x, s));
  }

  lemma PrependAscends(x: real, s: seq<real>)
    requires Ascending(s) && forall j :: 0 <= j < |s| ==> x <= s[j]
    ensures Ascending([x] + s)
  {
  }

  lemma {:induction false} SortedAscends(s: seq<real>)
    ensures Ascending(Sorted(s))
  {
    if s != [] {
      SortedAscends(s[1..]);
      InsertedAscends(s[0], Sorted(s[1..]));
    }
  }

  lemma SameLeast(a: seq<real>, b: seq<real>)
    requires Ascending(a) && Ascending(b) && multiset(a) == multiset(b) && a != [] && b != []
    ensures a[0] == b[0]
  {
    assert a[0] in multiset(b) && b[0] in multiset(a);
  }

  lemma SameRest(a: seq<real>, b: seq<real>)
    requires multiset(a) == multiset(b) && a != [] && b != [] && a[0] == b[0]
    ensures multiset(a[1..]) == multiset(b[1..])
  {
    assert Without(a, 0) == a[1..] && Without(b, 0) == b[1..];
    assert multiset(a[1..]) == multiset(a) - multiset{a[0]};
    assert multiset(b[1..]) == multiset(b) - multiset{b[0]};
  }

  lemma {:induction false} AscendingIsUnique(a: seq<real>, b: seq<real>)
    requires Ascending(a) && Ascending(b) && multiset(a) == multiset(b)
    ensures a == b
    decreases |a|
  {
    SameLength(a, b);
    if a != [] {
      SameLeast(a, b);
      SameRest(a, b);
      AscendingIsUnique(a[1..], b[1..]);
      assert a == [a[0]] + a[1..] && b == [b[0]] + b[1..];
    }
  }

  function Median(values: seq<real>): real {
    var s, mid := Sorted(values), |values| / 2;
    if values == [] then 0.0
    else if |values| % 2 == 1 then s[mid]
    else (s[mid - 1] + s[mid]) / 2.0
  }

  lemma MedianIgnoresOrder(a: seq<real>, b: seq<real>)
    requires multiset(a) == multiset(b)
    ensures Median(a) == Median(b)
  {
    SortedAscends(a);
    SortedAscends(b);
    AscendingIsUnique(Sorted(a), Sorted(b));
    SameLength(a, b);
  }

  /** How many values lie below `x`, or at most at `x`. */
  function Under(s: seq<real>, x: real, strict: bool): (n: nat) {
    if s == [] then 0 else (if s[0] < x || (!strict && s[0] == x) then 1 else 0) + Under(s[1..], x, strict)
  }

  function AtMost(s: seq<real>, x: real): (n: nat) {
    Under(s, x, false)
  }

  lemma {:induction false} UnderInserted(y: real, s: seq<real>, x: real, strict: bool)
    ensures Under(Inserted(y, s), x, strict) == Under(s, x, strict) + if y < x || (!strict && y == x) then 1 else 0
  {
    if s != [] {
      if y <= s[0] {
        assert ([y] + s)[1..] == s;
      } else {
        UnderInserted(y, s[1..], x, strict);
        assert ([s[0]] + Inserted(y, s[1..]))[1..] == Inserted(y, s[1..]);
      }
    }
  }

  lemma {:induction false} UnderSorted(s: seq<real>, x: real, strict: bool)
    ensures Under(Sorted(s), x, strict) == Under(s, x, strict)
  {
    if s != [] {
      UnderSorted(s[1..], x, strict);
      UnderInserted(s[0], Sorted(s[1..]), x, strict);
    }
  }

  lemma {:induction false} AtMostPrefix(s: seq<real>, x: real, k: nat)
    requires k <= |s| && forall i :: 0 <= i < k ==> s[i] <= x
    ensures AtMost(s, x) >= k
  {
    if k > 0 {
      forall i | 0 <= i < k - 1
        ensures s[1..][i] <= x
      {
        assert s[1..][i] == s[i + 1];
      }
      AtMostPrefix(s[1..], x, k - 1);
    }
  }

  lemma {:induction false} BelowSuffix(s: seq<real>, x: real, k: nat)
    requires k <= |s| && forall i :: k <= i < |s| ==> s[i] >= x
    ensures Under(s, x, true) <= k
  {
    if s != [] {
      var n := if k == 0 then 0 else k - 1;
      forall i | n <= i < |s| - 1
        ensures s[1..][i] >= x
      {
        assert s[1..][i] == s[i + 1];
      }
      BelowSuffix(s[1..], x, n);
    }
  }

  /** `x` is the value of rank `k`: fewer than `k` values lie below it and at least `k` do not lie above. */
  predicate IsRanked(values: seq<real>, k: nat, x: real) {
    x in values && Under(values, x, true) < k <= AtMost(values, x)
  }

  /** The middle value, or the midpoint of the two middle ones. */
  ghost predicate IsMedian(values: seq<real>, m: real) {
    if values == [] then m == 0.0
    else exists lo, hi :: IsMiddlePair(values, lo, hi) && m == (lo + hi) / 2.0
  }

  predicate IsMiddlePair(values: seq<real>, lo: real, hi: real) {
    IsRanked(values, (|values| + 1) / 2, lo) && IsRanked(values, |values| / 2 + 1, hi)
  }

  lemma SortedIsRanked(values: seq<real>, k: nat)
    requires 1 <= k <= |values|
    ensures IsRanked(values, k, Sorted(values)[k - 1])
  {
    hide Sorted, Under;
    SortedAscends(values);
    var s := Sorted(values);
    var x := s[k - 1];
    UnderSorted(values, x, true);
    UnderSorted(values, x, false);
    AtMostPrefix(s, x, k);
    BelowSuffix(s, x, k - 1);
    assert x in multiset(s);
    assert x in multiset(values);
  }

  /** Taking the middle of the sorted values computes the median, whatever way it is sorted. */
  lemma MedianIsMiddle(values: seq<real>)
    ensures IsMedian(values, Median(values))
  {
    if values != [] {
      SortedIsRanked(values, (|values| + 1) / 2);
      SortedIsRanked(values, |values| / 2 + 1);
      SortedAscends(values);
      var sorted := Sorted(values);
      assert IsMiddlePair(values, sorted[(|values| + 1) / 2 - 1], sorted[|values| / 2]);
    }
  }

  /** At least half of the values, rounded up, are no larger than the median. */
  lemma HalfAtMostMedian(values: seq<real>)
    ensures 2 * AtMost(values, Median(values)) >= |values|
  {
    SortedAscends(values);
    UnderSorted(values, Median(values), false);
    AtMostPrefix(Sorted(values), Median(values), (|values| + 1) / 2);
  }

  function Sum(s: seq<real>): real {
    if s == [] then 0.0 else Sum(s[..|s| - 1]) + s[|s| - 1]
  }

  lemma {:induction false} SumWithout(s: seq<real>, i: nat)
    requires i < |s|
    ensures Sum(s) == Sum(Without(s, i)) + s[i]
  {
    hide Without;
    var n := |s| - 1;
    if i == n {
      WithoutLast(s);
    } else {
      SumWithout(s[..n], i);
      WithoutThenLast(s, i);
    }
  }

  lemma {:induction false} SumIgnoresOrder(a: seq<real>, b: seq<real>)
    requires multiset(a) == multiset(b)
    ensures Sum(a) == Sum(b)
    decreases |a|
  {
    SameLength(a, b);
    if a != [] {
      var j := Matching(a, 0, b);
      SumIgnoresOrder(Without(a, 0), Without(b, j));
      SumWithout(a, 0);
      SumWithout(b, j);
    }
  }

  function Average(values: seq<real>): real {
    if values == [] then 0.0 else Sum(values) / |values| as real
  }

  // ---------------------------------------------------------------- scoring one service

  function Rate(count: int, total: int): real {
    if total <= 0 then 0.0 else count as real / total as real
  }

  function NetworkRate(count: int, total: int): real {
    if count <= 0 then 0.0 else if total <= 0 then count as real else count as real / total as real
  }

  function Capacity(value: int): (c: int)
    ensures c > 0
  {
    if value <= 0 then 100 else value
  }

  function Abs(a: real): real {
    if a < 0.0 then -a else a
  }

  /** What is read from every endpoint of a service. */
  datatype Column =
    | Latency
    | Deviation(from: real)
    | ErrorRate
    | RetransmitRate
    | ErrorScore(floor: real)
    | RetransmitScore(floor: real)

  function Cell(c: Column, l: Load): real {
    match c
    case Latency => Seconds(l.latencyP95)
    case Deviation(med) => Abs(Seconds(l.latencyP95) - med)
    case ErrorRate => Rate(l.errors, l.requests)
    case RetransmitRate => NetworkRate(l.networkEvents, l.requests)
    case ErrorScore(floor) => if l.errors > 0 && floor > 0.0 then Rate(l.errors, l.requests) / floor else 0.0
    case RetransmitScore(floor) =>
      if l.networkEvents > 0 && floor > 0.0 then NetworkRate(l.networkEvents, l.requests) / floor else 0.0
  }

  function Cells(c: Column, loads: seq<Load>): seq<real> {
    seq(|loads|, i requires 0 <= i < |loads| => Cell(c, loads[i]))
  }

  const SCORE_EPSILON := 0.000000001
  const MIN_SPREAD := 0.001

  datatype Weights = Weights(latency: real, error: real, inflight: real, retransmit: real)

  datatype Score = Score(total: real, latency: real, error: real, inflight: real, retransmit: real)

  /** What the endpoints of one service are measured against. */
  datatype Baseline = Baseline(medianLatency: real, spread: real, errorRate: real, retransmitRate: real)

  function BaselineOf(loads: seq<Load>): Baseline {
    var med := Median(Cells(Latency, loads));
    Baseline(
      med,
      Max(Median(Cells(Deviation(med), loads)), MIN_SPREAD),
      Max(Average(Cells(ErrorRate, loads)), SCORE_EPSILON),
      Max(Average(Cells(RetransmitRate, loads)), SCORE_EPSILON))
  }

  function RelativeLatency(b: Baseline, l: Load): real {
    if b.spread > 0.0 then Max(0.0, Seconds(l.latencyP95) - b.medianLatency) / b.spread else 0.0
  }

  function AbsoluteLatency(slo: int, l: Load): real {
    if slo <= 0 || l.latencyP95 <= 0 then 0.0 else Seconds(l.latencyP95) / Seconds(slo)
  }

  function ScoreOf(w: Weights, slo: int, b: Baseline, l: Load): Score {
    var latency := Max(RelativeLatency(b, l), AbsoluteLatency(slo, l));
    var error := Cell(ErrorScore(b.errorRate), l);
    var inflight := l.inflight as real / Capacity(l.capacity) as real;
    var retransmit := Cell(RetransmitScore(b.retransmitRate), l);
    Score(w.latency * latency + w.error * error + w.inflight * inflight + w.retransmit * retransmit,
          latency, error, inflight, retransmit)
  }

  // ---------------------------------------------------------------- what a score says

  ghost predicate IsRate(r: real, count: int, total: int) {
    if total <= 0 then r == 0.0 else r * total as real == count as real
  }

  ghost predicate IsNetworkRate(r: real, count: int, total: int) {
    if count <= 0 then r == 0.0 else if total <= 0 then r == count as real else r * total as real == count as real
  }

  function LatenciesOf(loads: seq<Load>): seq<real> {
    seq(|loads|, i requires 0 <= i < |loads| => loads[i].latencyP95 as real / 1000000000.0)
  }

  function DistancesFrom(values: seq<real>, m: real): seq<real> {
    seq(|values|, i requires 0 <= i < |values| => if values[i] >= m then values[i] - m else m - values[i])
  }

  /**
   The largest of zero, the excess over the median latency in units of the median deviation or a
   millisecond, and the latency in units of the objective where one is set.
   */
  ghost predicate LatencyLaw(slo: int, loads: seq<Load>, l: Load, latency: real) {
    exists med, mad ::
      && IsMedian(LatenciesOf(loads), med) && IsMedian(DistancesFrom(LatenciesOf(loads), med), mad)
      && LargestOf(slo, l, med, if mad >= 0.001 then mad else 0.001, latency)
  }

  ghost predicate LargestOf(slo: int, l: Load, med: real, spread: real, latency: real) {
    var excess := l.latencyP95 as real / 1000000000.0 - med;
    && latency >= 0.0 && latency * spread >= excess
    && (slo > 0 ==> latency * slo as real >= l.latencyP95 as real)
    && (latency == 0.0 || latency * spread == excess || (slo > 0 && latency * slo as real == l.latencyP95 as real))
  }

  /** `share` times the average of the rates, or the epsilon, is the endpoint's own rate. */
  ghost predicate IsShare(rates: seq<real>, own: real, average: real, share: real) {
    && average * |rates| as real == Sum(rates)
    && share * (if average >= 0.000000001 then average else 0.000000001) == own
  }

  ghost predicate ErrorLaw(loads: seq<Load>, l: Load, error: real) {
    exists rates, own, average ::
      && IsShare(rates, own, average, error) && AreErrorRates(loads, rates)
      && (if l.errors > 0 then IsRate(own, l.errors, l.requests) else own == 0.0)
  }

  ghost predicate AreErrorRates(loads: seq<Load>, rates: seq<real>) {
    |rates| == |loads| && forall i :: 0 <= i < |rates| ==> IsRate(rates[i], loads[i].errors, loads[i].requests)
  }

  ghost predicate RetransmitLaw(loads: seq<Load>, l: Load, retransmit: real) {
    exists rates, own, average ::
      && IsShare(rates, own, average, retransmit) && AreNetworkRates(loads, rates)
      && IsNetworkRate(own, l.networkEvents, l.requests)
  }

  ghost predicate AreNetworkRates(loads: seq<Load>, rates: seq<real>) {
    && |rates| == |loads|
    && forall i :: 0 <= i < |rates| ==> IsNetworkRate(rates[i], loads[i].networkEvents, loads[i].requests)
  }

  /** Everything a published score promises about the endpoint `l` among the endpoints of its service. */
  ghost predicate ScoreLaws(w: Weights, slo: int, loads: seq<Load>, l: Load, s: Score) {
    && s.total == w.latency * s.latency + w.error * s.error + w.inflight * s.inflight + w.retransmit * s.retransmit
    && s.inflight * (if l.capacity > 0 then l.capacity else 100) as real == l.inflight as real
    && LatencyLaw(slo, loads, l, s.latency) && ErrorLaw(loads, l, s.error) && RetransmitLaw(loads, l, s.retransmit)
  }

  lemma Quotient(a: real, b: real)
    requires b != 0.0
    ensures a / b * b == a
  {
  }

  lemma BaselineLatency(loads: seq<Load>) returns (med: real, mad: real)
    ensures IsMedian(LatenciesOf(loads), med) && IsMedian(DistancesFrom(LatenciesOf(loads), med), mad)
    ensures BaselineOf(loads).medianLatency == med
    ensures BaselineOf(loads).spread == if mad >= 0.001 then mad else 0.001
  {
    hide IsMedian, Median, Average, Rate, NetworkRate;
    med := Median(Cells(Latency, loads));
    assert Cells(Latency, loads) == LatenciesOf(loads);
    mad := Median(Cells(Deviation(med), loads));
    assert Cells(Deviation(med), loads) == DistancesFrom(LatenciesOf(loads), med);
    MedianIsMiddle(LatenciesOf(loads));
    MedianIsMiddle(DistancesFrom(LatenciesOf(loads), med));
  }

  lemma LatencyObeysLaw(slo: int, loads: seq<Load>, l: Load)
    ensures LatencyLaw(slo, loads, l, Max(RelativeLatency(BaselineOf(loads), l), AbsoluteLatency(slo, l)))
  {
    hide IsMedian, BaselineOf, RelativeLatency, AbsoluteLatency, LargestOf, LatenciesOf, DistancesFrom;
    var med, mad := BaselineLatency(loads);
    LargestIsMax(slo, l, BaselineOf(loads));
  }

  lemma LargestIsMax(slo: int, l: Load, b: Baseline)
    requires b.spread > 0.0
    ensures LargestOf(slo, l, b.medianLatency, b.spread, Max(RelativeLatency(b, l), AbsoluteLatency(slo, l)))
  {
    var excess := Seconds(l.latencyP95) - b.medianLatency;
    var relative, absolute := RelativeLatency(b, l), AbsoluteLatency(slo, l);
    Quotient(Max(0.0, excess), b.spread);
    PositiveQuotient(Max(0.0, excess), b.spread);
    if slo > 0 {
      ObjectiveShare(slo, l);
      Grows(relative, absolute, slo as real);
    }
    Grows(absolute, relative, b.spread);
  }

  lemma ObjectiveShare(slo: int, l: Load)
    requires slo > 0
    ensures var a := AbsoluteLatency(slo, l);
            a >= 0.0 && a * slo as real == if l.latencyP95 > 0 then l.latencyP95 as real else 0.0
  {
    if l.latencyP95 > 0 {
      PositiveQuotient(slo as real, 1000000000.0);
      PositiveQuotient(l.latencyP95 as real, 1000000000.0);
      PositiveQuotient(Seconds(l.latencyP95), Seconds(slo));
      Quotient(Seconds(l.latencyP95), Seconds(slo));
      SameScale(AbsoluteLatency(slo, l), slo as real, l.latencyP95 as real);
    }
  }

  lemma SameScale(a: real, b: real, c: real)
    requires a * (b / 1000000000.0) == c / 1000000000.0
    ensures a * b == c
  {
    assert a * b == a * (b / 1000000000.0) * 1000000000.0;
  }

  lemma Grows(a: real, b: real, c: real)
    requires c >= 0.0
    ensures a >= b ==> a * c >= b * c
  {
    if a >= b {
      assert (a - b) * c >= 0.0;
    }
  }

  lemma RateIsRate(count: int, total: int)
    ensures IsRate(Rate(count, total), count, total) && IsNetworkRate(NetworkRate(count, total), count, total)
  {
    if total > 0 {
      Quotient(count as real, total as real);
    }
  }

  lemma AverageTimes(values: seq<real>)
    ensures Average(values) * |values| as real == Sum(values)
  {
    if values != [] {
      Quotient(Sum(values), |values| as real);
    }
  }

  lemma RatesAreRates(loads: seq<Load>)
    ensures AreErrorRates(loads, Cells(ErrorRate, loads)) && AreNetworkRates(loads, Cells(RetransmitRate, loads))
  {
    hide IsRate, IsNetworkRate, Rate, NetworkRate;
    forall i | 0 <= i < |loads|
      ensures IsRate(Cells(ErrorRate, loads)[i], loads[i].errors, loads[i].requests)
      ensures IsNetworkRate(Cells(RetransmitRate, loads)[i], loads[i].networkEvents, loads[i].requests)
    {
      RateIsRate(loads[i].errors, loads[i].requests);
      RateIsRate(loads[i].networkEvents, loads[i].requests);
    }
  }

  lemma ShareIsShare(rates: seq<real>, own: real)
    ensures IsShare(rates, own, Average(rates), own / Max(Average(rates), SCORE_EPSILON))
    ensures IsShare(rates, 0.0, Average(rates), 0.0)
  {
    hide Average, Sum;
    AverageTimes(rates);
    Quotient(own, Max(Average(rates), SCORE_EPSILON));
  }

  lemma ErrorObeysLaw(loads: seq<Load>, l: Load)
    ensures ErrorLaw(loads, l, Cell(ErrorScore(BaselineOf(loads).errorRate), l))
  {
    hide Median, Average, Sum, IsRate, Rate, NetworkRate, Cells, AreErrorRates, AreNetworkRates, IsShare;
    RatesAreRates(loads);
    RateIsRate(l.errors, l.requests);
    ShareIsShare(Cells(ErrorRate, loads), Rate(l.errors, l.requests));
  }

  lemma RetransmitObeysLaw(loads: seq<Load>, l: Load)
    ensures RetransmitLaw(loads, l, Cell(RetransmitScore(BaselineOf(loads).retransmitRate), l))
  {
    hide Median, Average, Sum, Rate, NetworkRate, Cells, AreErrorRates, AreNetworkRates, IsShare;
    RatesAreRates(loads);
    RateIsRate(l.networkEvents, l.requests);
    ShareIsShare(Cells(RetransmitRate, loads), NetworkRate(l.networkEvents, l.requests));
  }

  /** The scores the calculation gives keep every law. */
  lemma ScoreObeysLaws(w: Weights, slo: int, loads: seq<Load>, l: Load)
    ensures ScoreLaws(w, slo, loads, l, ScoreOf(w, slo, BaselineOf(loads), l))
  {
    hide BaselineOf, LatencyLaw, ErrorLaw, RetransmitLaw, RelativeLatency, AbsoluteLatency, Cell;
    LatencyObeysLaw(slo, loads, l);
    ErrorObeysLaw(loads, l);
    RetransmitObeysLaw(loads, l);
    Quotient(l.inflight as real, Capacity(l.capacity) as real);
  }

  /** With one weight alone the total is that component, scaled. */
  lemma OneWeight(slo: int, loads: seq<Load>, l: Load, x: real, s: Score)
    ensures ScoreLaws(Weights(x, 0.0, 0.0, 0.0), slo, loads, l, s) ==> s.total == x * s.latency
    ensures ScoreLaws(Weights(0.0, x, 0.0, 0.0), slo, loads, l, s) ==> s.total == x * s.error
    ensures ScoreLaws(Weights(0.0, 0.0, x, 0.0), slo, loads, l, s) ==> s.total == x * s.inflight
    ensures ScoreLaws(Weights(0.0, 0.0, 0.0, x), slo, loads, l, s) ==> s.total == x * s.retransmit
  {
    hide LatencyLaw, ErrorLaw, RetransmitLaw;
  }

  lemma {:induction false} CellsWithout(c: Column, loads: seq<Load>, i: nat)
    requires i < |loads|
    ensures multiset(Cells(c, loads)) == multiset(Cells(c, Without(loads, i))) + multiset{Cell(c, loads[i])}
  {
    var cells := Cells(c, loads);
    assert Cells(c, Without(loads, i)) == Without(cells, i);
  }

  lemma {:induction false} CellsIgnoreOrder(c: Column, a: seq<Load>, b: seq<Load>)
    requires multiset(a) == multiset(b)
    ensures multiset(Cells(c, a)) == multiset(Cells(c, b))
    decreases |a|
  {
    hide Cell;
    SameLength(a, b);
    if a != [] {
      var j := Matching(a, 0, b);
      CellsIgnoreOrder(c, Without(a, 0), Without(b, j));
      CellsWithout(c, a, 0);
      CellsWithout(c, b, j);
    }
  }

  lemma BaselineIgnoresOrder(a: seq<Load>, b: seq<Load>)
    requires multiset(a) == multiset(b)
    ensures BaselineOf(a) == BaselineOf(b)
  {
    hide Cell, Median, Sum, Cells;
    var med := Median(Cells(Latency, a));
    CellsIgnoreOrder(Latency, a, b);
    CellsIgnoreOrder(Deviation(med), a, b);
    CellsIgnoreOrder(ErrorRate, a, b);
    CellsIgnoreOrder(RetransmitRate, a, b);
    MedianIgnoresOrder(Cells(Latency, a), Cells(Latency, b));
    MedianIgnoresOrder(Cells(Deviation(med), a), Cells(Deviation(med), b));
    AverageIgnoresOrder(Cells(ErrorRate, a), Cells(ErrorRate, b));
    AverageIgnoresOrder(Cells(RetransmitRate, a), Cells(RetransmitRate, b));
  }

  lemma AverageIgnoresOrder(a: seq<real>, b: seq<real>)
    requires multiset(a) == multiset(b)
    ensures Average(a) == Average(b)
  {
    SumIgnoresOrder(a, b);
    SameLength(a, b);
  }

  // ---------------------------------------------------------------- robustness

  /** How many endpoints have a relative latency score of zero. */
  function Unhurt(b: Baseline, loads: seq<Load>): (n: nat) {
    if loads == [] then 0 else (if RelativeLatency(b, loads[0]) == 0.0 then 1 else 0) + Unhurt(b, loads[1..])
  }

  lemma PositiveQuotient(a: real, b: real)
    requires b > 0.0
    ensures a > 0.0 ==> a / b > 0.0
    ensures a == 0.0 ==> a / b == 0.0
    ensures a >= 0.0 ==> a / b >= 0.0
  {
  }

  lemma {:induction false} UnhurtCount(b: Baseline, loads: seq<Load>)
    requires b.spread > 0.0
    ensures Unhurt(b, loads) == AtMost(Cells(Latency, loads), b.medianLatency)
  {
    if loads != [] {
      UnhurtCount(b, loads[1..]);
      assert Cells(Latency, loads)[1..] == Cells(Latency, loads[1..]);
      PositiveQuotient(Max(0.0, Seconds(loads[0].latencyP95) - b.medianLatency), b.spread);
    }
  }

  /** However slow the others are, half of a service's endpoints, rounded up, get relative latency score 0. */
  lemma HalfUnhurt(loads: seq<Load>)
    ensures 2 * Unhurt(BaselineOf(loads), loads) >= |loads|
  {
    UnhurtCount(BaselineOf(loads), loads);
    HalfAtMostMedian(Cells(Latency, loads));
  }

  lemma {:induction false} ScoresSum(loads: seq<Load>, rate: Column, score: Column)
    requires (rate == ErrorRate && score.ErrorScore? && forall l :: l in loads ==> l.errors >= 0)
          || (rate == RetransmitRate && score.RetransmitScore?)
    requires score.floor > 0.0
    ensures Sum(Cells(score, loads)) * score.floor <= Sum(Cells(rate, loads))
  {
    hide Cell;
    if loads != [] {
      var n := |loads| - 1;
      ScoresSum(loads[..n], rate, score);
      assert Cells(score, loads)[..n] == Cells(score, loads[..n]);
      assert Cells(rate, loads)[..n] == Cells(rate, loads[..n]);
      OneScore(loads[n], rate, score);
      var a, b := Sum(Cells(score, loads[..n])), Cell(score, loads[n]);
      assert (a + b) * score.floor == a * score.floor + b * score.floor;
    }
  }

  lemma OneScore(l: Load, rate: Column, score: Column)
    requires (rate == ErrorRate && score.ErrorScore? && l.errors >= 0) || (rate == RetransmitRate && score.RetransmitScore?)
    requires score.floor > 0.0
    ensures Cell(score, l) * score.floor <= Cell(rate, l)
  {
    if l.requests > 0 {
      PositiveQuotient(l.errors as real, l.requests as real);
      PositiveQuotient(l.networkEvents as real, l.requests as real);
    }
    var r, f := Cell(rate, l), score.floor;
    assert (r / f) * f == r;
  }

  lemma ShareBound(sum: real, total: real, n: nat, floor: real)
    requires floor > 0.0 && sum * floor <= total
    requires n == 0 ==> total == 0.0
    requires n > 0 ==> total / n as real <= floor
    ensures sum <= n as real
  {
    if n > 0 {
      assert total == (total / n as real) * n as real;
      assert (total / n as real) * n as real <= floor * n as real;
    }
    assert (sum - n as real) * floor <= 0.0;
  }

  /** Error scores, and retransmit scores, are shares: over n endpoints each kind sums to at most n. */
  lemma SharesAreBounded(loads: seq<Load>)
    requires forall l :: l in loads ==> l.errors >= 0
    ensures Sum(Cells(ErrorScore(BaselineOf(loads).errorRate), loads)) <= |loads| as real
    ensures Sum(Cells(RetransmitScore(BaselineOf(loads).retransmitRate), loads)) <= |loads| as real
  {
    hide Cell, Median;
    var b := BaselineOf(loads);
    ScoresSum(loads, ErrorRate, ErrorScore(b.errorRate));
    ScoresSum(loads, RetransmitRate, RetransmitScore(b.retransmitRate));
    ShareBound(Sum(Cells(ErrorScore(b.errorRate), loads)), Sum(Cells(ErrorRate, loads)), |loads|, b.errorRate);
    ShareBound(Sum(Cells(RetransmitScore(b.retransmitRate), loads)), Sum(Cells(RetransmitRate, loads)), |loads|,
               b.retransmitRate);
  }

  // ---------------------------------------------------------------- the calculation

  function ScoreKey(service: string, instanceId: string): string {
    service + "/" + instanceId
  }

  function OutKey(k: Key): string {
    ScoreKey(k.service, k.instanceId)
  }

  function KeysOf(folded: map<Key, Sample>, service: string): set<Key> {
    set k | k in folded && k.service == service
  }

  /** `order` lists the endpoints of `service`, each once. */
  ghost predicate Lists(order: seq<Key>, folded: map<Key, Sample>, service: string) {
    && (forall k :: k in order <==> k in KeysOf(folded, service))
    && (forall i, j :: 0 <= i < j < |order| ==> order[i] != order[j])
  }

  function LoadsAt(folded: map<Key, Sample>, order: seq<Key>): seq<Load>
    requires forall k :: k in order ==> k in folded
  {
    seq(|order|, i requires 0 <= i < |order| => LoadOf(folded[order[i]]))
  }

  /** `score` is what endpoint `k` gets, whatever order its service is listed in. */
  ghost predicate Scored(w: Weights, slo: int, folded: map<Key, Sample>, k: Key, score: Score) {
    && k in folded
    && (exists order :: Lists(order, folded, k.service))
    && forall order :: Lists(order, folded, k.service)
         ==> score == ScoreOf(w, slo, BaselineOf(LoadsAt(folded, order)), LoadOf(folded[k]))
  }

  /** Endpoint `k` is listed with its service, and in every listing `score` keeps the laws of a score. */
  ghost predicate Lawful(w: Weights, slo: int, folded: map<Key, Sample>, k: Key, score: Score) {
    && k in folded
    && (exists order :: Lists(order, folded, k.service))
    && forall order :: Lists(order, folded, k.service)
         ==> ScoreLaws(w, slo, LoadsAt(folded, order), LoadOf(folded[k]), score)
  }

  lemma ScoredIsLawful(w: Weights, slo: int, folded: map<Key, Sample>, k: Key, score: Score)
    requires Scored(w, slo, folded, k, score)
    ensures Lawful(w, slo, folded, k, score)
  {
    hide BaselineOf, ScoreOf, LoadsAt, LoadOf, ScoreLaws;
    forall order | Lists(order, folded, k.service)
      ensures ScoreLaws(w, slo, LoadsAt(folded, order), LoadOf(folded[k]), score)
    {
      ScoreObeysLaws(w, slo, LoadsAt(folded, order), LoadOf(folded[k]));
    }
  }

  lemma {:induction false} ListedOnce(order: seq<Key>, k: Key)
    requires forall i, j :: 0 <= i < j < |order| ==> order[i] != order[j]
    ensures multiset(order)[k] == if k in order then 1 else 0
  {
    if order != [] {
      var n := |order| - 1;
      ListedOnce(order[..n], k);
      assert order == order[..n] + [order[n]];
    }
  }

  lemma ListingsPermute(a: seq<Key>, b: seq<Key>, folded: map<Key, Sample>, service: string)
    requires Lists(a, folded, service) && Lists(b, folded, service)
    ensures multiset(a) == multiset(b)
  {
    forall k: Key
      ensures multiset(a)[k] == multiset(b)[k]
    {
      ListedOnce(a, k);
      ListedOnce(b, k);
    }
  }

  lemma {:induction false} LoadsAtPermute(folded: map<Key, Sample>, a: seq<Key>, b: seq<Key>)
    requires multiset(a) == multiset(b)
    requires forall k :: k in a || k in b ==> k in folded
    ensures multiset(LoadsAt(folded, a)) == multiset(LoadsAt(folded, b))
    decreases |a|
  {
    SameLength(a, b);
    if a != [] {
      var j := Matching(a, 0, b);
      LoadsAtPermute(folded, Without(a, 0), Without(b, j));
      assert LoadsAt(folded, Without(a, 0)) == Without(LoadsAt(folded, a), 0);
      assert LoadsAt(folded, Without(b, j)) == Without(LoadsAt(folded, b), j);
    }
  }

  /** Scores do not depend on the order in which a map hands out the endpoints of a service. */
  lemma ScoredInAnyOrder(w: Weights, slo: int, folded: map<Key, Sample>, k: Key, order: seq<Key>)
    requires k in folded && Lists(order, folded, k.service)
    ensures Scored(w, slo, folded, k, ScoreOf(w, slo, BaselineOf(LoadsAt(folded, order)), LoadOf(folded[k])))
  {
    hide BaselineOf, ScoreOf;
    forall other | Lists(other, folded, k.service)
      ensures BaselineOf(LoadsAt(folded, other)) == BaselineOf(LoadsAt(folded, order))
    {
      ListingsPermute(other, order, folded, k.service);
      LoadsAtPermute(folded, other, order);
      BaselineIgnoresOrder(LoadsAt(folded, other), LoadsAt(folded, order));
    }
  }

  /** Scores do not depend on the order of the samples in a report. */
  lemma ScoresIgnoreSampleOrder(w: Weights, slo: int, a: seq<Sample>, b: seq<Sample>, k: Key, score: Score)
    requires multiset(a) == multiset(b)
    ensures Scored(w, slo, FoldedAll(a), k, score) <==> Scored(w, slo, FoldedAll(b), k, score)
  {
    LoadsIgnoreOrder(a, b);
    if Scored(w, slo, FoldedAll(a), k, score) {
      SameScore(w, slo, FoldedAll(a), FoldedAll(b), k, score);
    }
    if Scored(w, slo, FoldedAll(b), k, score) {
      SameScore(w, slo, FoldedAll(b), FoldedAll(a), k, score);
    }
  }

  lemma LoadsAtAgree(f: map<Key, Sample>, g: map<Key, Sample>, order: seq<Key>)
    requires forall k :: k in order ==> k in f && k in g && LoadOf(f[k]) == LoadOf(g[k])
    ensures LoadsAt(f, order) == LoadsAt(g, order)
  {
    forall i | 0 <= i < |order|
      ensures LoadsAt(f, order)[i] == LoadsAt(g, order)[i]
    {
      assert order[i] in order;
    }
  }

  lemma SameScore(w: Weights, slo: int, f: map<Key, Sample>, g: map<Key, Sample>, k: Key, score: Score)
    requires LoadsOf(f) == LoadsOf(g) && Scored(w, slo, f, k, score)
    ensures Scored(w, slo, g, k, score)
  {
    hide BaselineOf, ScoreOf, LoadOf;
    assert forall j :: j in f <==> j in LoadsOf(f);
    assert forall j :: j in g <==> j in LoadsOf(g);
    forall j | j in f
      ensures LoadOf(f[j]) == LoadOf(g[j])
    {
      assert LoadsOf(f)[j] == LoadsOf(g)[j];
    }
    forall order | Lists(order, g, k.service)
      ensures Lists(order, f, k.service) && LoadsAt(f, order) == LoadsAt(g, order)
    {
      assert Lists(order, f, k.service);
      LoadsAtAgree(f, g, order);
    }
    var order :| Lists(order, f, k.service);
    assert Lists(order, g, k.service);
  }

  method FoldSamples(samples: seq<Sample>) returns (folded: map<Key, Sample>)
    ensures folded == FoldedAll(samples)
  {
    folded := map[];
    for i := 0 to |samples|
      invariant folded == FoldedAll(samples[..i])
    {
      var s := samples[i];
      assert samples[..i + 1][..i] == samples[..i];
      if s.service == "" || s.instanceId == "" {
        continue;
      }
      if KeyOf(s) in folded {
        folded := folded[KeyOf(s) := Aggregate(folded[KeyOf(s)], s)];
      } else {
        folded := folded[KeyOf(s) := s];
      }
    }
    assert samples[..|samples|] == samples;
  }

  /** The endpoints of one service, in whatever order the map hands them out. */
  method ListService(folded: map<Key, Sample>, service: string) returns (order: seq<Key>)
    ensures Lists(order, folded, service)
  {
    order := [];
    var rest := KeysOf(folded, service);
    while rest != {}
      invariant forall k :: k in KeysOf(folded, service) <==> k in order || k in rest
      invariant forall k :: k in rest ==> k !in order
      invariant forall i, j :: 0 <= i < j < |order| ==> order[i] != order[j]
      decreases rest
    {
      var k :| k in rest;
      order, rest := order + [k], rest - {k};
    }
  }

  lemma OwnKeyInService(a: Key, b: Key)
    requires a.service == b.service && OutKey(a) == OutKey(b)
    ensures a == b
  {
    var n := |a.service| + 1;
    assert OutKey(a)[n..] == a.instanceId && OutKey(b)[n..] == b.instanceId;
  }

  method Measure(folded: map<Key, Sample>, order: seq<Key>) returns (b: Baseline)
    requires forall k :: k in order ==> k in folded
    ensures b == BaselineOf(LoadsAt(folded, order))
  {
    hide Cell, Measured, BaselineOf;
    var latencies, errorRates, retransmitRates: seq<real> := [], [], [];
    ghost var loads := LoadsAt(folded, order);
    for i := 0 to |order|
      invariant latencies == Cells(Latency, loads[..i])
      invariant errorRates == Cells(ErrorRate, loads[..i])
      invariant retransmitRates == Cells(RetransmitRate, loads[..i])
    {
      var l := LoadOf(folded[order[i]]);
      latencies := latencies + [Cell(Latency, l)];
      errorRates := errorRates + [Cell(ErrorRate, l)];
      retransmitRates := retransmitRates + [Cell(RetransmitRate, l)];
    }
    assert loads[..|order|] == loads;
    b := Measured(latencies, errorRates, retransmitRates);
    MeasuredIsBaseline(loads);
  }

  /** Adds the scores of one service to `scores`. */
  method CalculateService(w: Weights, slo: int, folded: map<Key, Sample>, service: string, order: seq<Key>,
                          scores: map<string, Score>)
      returns (out: map<string, Score>)
    requires Lists(order, folded, service)
    ensures out.Keys == scores.Keys + set k | k in order :: OutKey(k)
    ensures forall k :: k in order
              ==> out[OutKey(k)] == ScoreOf(w, slo, BaselineOf(LoadsAt(folded, order)), LoadOf(folded[k]))
    ensures forall name :: name in scores && (forall k :: k in order ==> OutKey(k) != name) ==> out[name] == scores[name]
  {
    hide ScoreOf, BaselineOf, OutKey, LoadOf, LoadsAt;
    var b := Measure(folded, order);
    out := scores;
    for i := 0 to |order|
      invariant out.Keys == scores.Keys + set k | k in order[..i] :: OutKey(k)
      invariant forall k :: k in order[..i] ==> out[OutKey(k)] == ScoreOf(w, slo, b, LoadOf(folded[k]))
      invariant forall name :: name in scores && (forall k :: k in order[..i] ==> OutKey(k) != name)
                  ==> out[name] == scores[name]
    {
      var k := order[i];
      assert order[..i + 1] == order[..i] + [k];
      forall j | j in order[..i]
        ensures OutKey(j) != OutKey(k)
      {
        assert j in order && k in order;
        assert j in KeysOf(folded, service) && k in KeysOf(folded, service);
        if OutKey(j) == OutKey(k) {
          OwnKeyInService(j, k);
        }
      }
      out := out[OutKey(k) := ScoreOf(w, slo, b, LoadOf(folded[k]))];
    }
    assert order[..|order|] == order;
  }

  /** The baseline as the code builds it, from the three columns it collects. */
  function Measured(latencies: seq<real>, errorRates: seq<real>, retransmitRates: seq<real>): Baseline {
    var med := Median(latencies);
    Baseline(med, Max(Median(seq(|latencies|, i requires 0 <= i < |latencies| => Abs(latencies[i] - med))), MIN_SPREAD),
             Max(Average(errorRates), SCORE_EPSILON), Max(Average(retransmitRates), SCORE_EPSILON))
  }

  lemma MeasuredIsBaseline(loads: seq<Load>)
    ensures Measured(Cells(Latency, loads), Cells(ErrorRate, loads), Cells(RetransmitRate, loads)) == BaselineOf(loads)
  {
    hide Median, Average;
    var latencies := Cells(Latency, loads);
    var med := Median(latencies);
    assert seq(|latencies|, i requires 0 <= i < |latencies| => Abs(latencies[i] - med)) == Cells(Deviation(med), loads);
  }

  function ServicesOf(folded: map<Key, Sample>): set<string> {
    set k | k in folded :: k.service
  }

  /** No other endpoint of the report shares its key in the result, which joins service and instance with a slash. */
  ghost predicate OwnKey(folded: map<Key, Sample>, k: Key) {
    forall j :: j in folded && OutKey(j) == OutKey(k) ==> j == k
  }

  ghost predicate Done(w: Weights, slo: int, folded: map<Key, Sample>, rest: set<string>, scores: map<string, Score>) {
    && scores.Keys == (set k | k in folded && k.service !in rest :: OutKey(k))
    && forall k :: k in folded && k.service !in rest && OwnKey(folded, k)
         ==> Scored(w, slo, folded, k, scores[OutKey(k)])
  }

  lemma ServiceDone(w: Weights, slo: int, folded: map<Key, Sample>, rest: set<string>, service: string, order: seq<Key>,
                    scores: map<string, Score>, out: map<string, Score>)
    requires Done(w, slo, folded, rest, scores) && service in rest && Lists(order, folded, service)
    requires out.Keys == scores.Keys + set k | k in order :: OutKey(k)
    requires forall k :: k in order
               ==> out[OutKey(k)] == ScoreOf(w, slo, BaselineOf(LoadsAt(folded, order)), LoadOf(folded[k]))
    requires forall name :: name in scores && (forall k :: k in order ==> OutKey(k) != name) ==> out[name] == scores[name]
    ensures Done(w, slo, folded, rest - {service}, out)
  {
    hide BaselineOf, ScoreOf, LoadsAt, Scored, OutKey;
    forall k | k in folded
      ensures k in order <==> k.service == service
    {
      assert k in order <==> k in KeysOf(folded, service);
    }
    forall k | k in folded && k.service !in rest - {service} && OwnKey(folded, k)
      ensures OutKey(k) in out && Scored(w, slo, folded, k, out[OutKey(k)])
    {
      if k.service == service {
        ScoredInAnyOrder(w, slo, folded, k, order);
      } else {
        assert forall j :: j in order ==> OutKey(j) != OutKey(k);
      }
    }
  }

  /** Every endpoint with a key of its own gets its score; services and endpoints are visited in any order. */
  method Calculate(w: Weights, slo: int, samples: seq<Sample>) returns (scores: map<string, Score>)
    ensures scores.Keys == set k | k in FoldedAll(samples) :: OutKey(k)
    ensures forall k :: k in FoldedAll(samples) && OwnKey(FoldedAll(samples), k)
              ==> Scored(w, slo, FoldedAll(samples), k, scores[OutKey(k)])
    ensures forall k :: k in FoldedAll(samples) && OwnKey(FoldedAll(samples), k)
              ==> Lawful(w, slo, FoldedAll(samples), k, scores[OutKey(k)])
  {
    hide Done, Lawful, Scored;
    var folded := FoldSamples(samples);
    scores := map[];
    var rest := ServicesOf(folded);
    NoneDone(w, slo, folded);
    while rest != {}
      invariant Done(w, slo, folded, rest, scores)
      decreases rest
    {
      var service :| service in rest;
      var order := ListService(folded, service);
      var out := CalculateService(w, slo, folded, service, order, scores);
      ServiceDone(w, slo, folded, rest, service, order, scores, out);
      scores, rest := out, rest - {service};
    }
    AllDone(w, slo, folded, scores);
    forall k | k in folded && OwnKey(folded, k)
      ensures Lawful(w, slo, folded, k, scores[OutKey(k)])
    {
      ScoredIsLawful(w, slo, folded, k, scores[OutKey(k)]);
    }
  }

  lemma NoneDone(w: Weights, slo: int, folded: map<Key, Sample>)
    ensures Done(w, slo, folded, ServicesOf(folded), map[])
  {
  }

  lemma AllDone(w: Weights, slo: int, folded: map<Key, Sample>, scores: map<string, Score>)
    requires Done(w, slo, folded, {}, scores)
    ensures scores.Keys == set k | k in folded :: OutKey(k)
    ensures forall k :: k in folded && OwnKey(folded, k) ==> Scored(w, slo, folded, k, scores[OutKey(k)])
  {
  }
}
