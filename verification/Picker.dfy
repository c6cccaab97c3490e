/**
 Power of two choices. The reference picker filters its endpoints and computes their costs on every
 pick; the client's picker is built once per resolver update and picks from index lists and costs
 prepared then, reading only the live counters. Costs are reals.
 */
module Picker {
  import opened Basics
  import opened Status

  /** A random source: its `k`th draw below `n`. */
  type Draws = nat -> nat

  function Draw(draws: Draws, k: nat, n: nat): (r: nat)
    requires n > 0
    ensures r < n
  {
    draws(k) % n
  }

  class Random {
    const draws: Draws
    var used: nat

    constructor (draws: Draws)
      ensures this.draws == draws && used == 0
    {
      this.draws, used := draws, 0;
    }

    method Intn(n: nat) returns (r: nat)
      requires n > 0
      modifies this
      ensures r == Draw(draws, old(used), n) && used == old(used) + 1
    {
      r, used := draws(used) % n, used + 1;
    }
  }

  function NonNegative(x: int): int {
    if x > 0 then x else 0
  }

  // ---------------------------------------------------------------- the reference picker

  datatype Endpoint = Endpoint(id: string, status: Code, inflight: int, latency: int, weight: real, slowScore: real)

  datatype Config = Config(latencyPenalty: real, slowPenalty: real, probeRatio: real)

  function EffectiveWeight(weight: real, slowScore: real): (w: real)
    requires slowScore >= 0.0
    ensures w > 0.0
  {
    var base := if weight <= 0.0 then 1.0 else weight;
    var w := base / (1.0 + slowScore);
    if w <= 0.0 then 1.0 else w
  }

  function EndpointCost(e: Endpoint, cfg: Config): real {
    var slow := Max(0.0, e.slowScore);
    var slowCost := slow * cfg.slowPenalty + if e.status == Degraded then 1.0 else 0.0;
    NonNegative(e.inflight) as real / EffectiveWeight(e.weight, slow) + Seconds(e.latency) * cfg.latencyPenalty + slowCost
  }

  /** What a load costs when slowness scales it and weight divides it, with the latency and the penalties added. */
  function CostFormula(load: real, slow: real, weight: real, seconds: real, degraded: bool, cfg: Config): real
    requires weight > 0.0
  {
    load * (1.0 + slow) / weight + seconds * cfg.latencyPenalty + slow * cfg.slowPenalty + if degraded then 1.0 else 0.0
  }

  lemma CostMeans(e: Endpoint, cfg: Config)
    ensures var slow := if e.slowScore > 0.0 then e.slowScore else 0.0;
            var weight := if e.weight > 0.0 then e.weight else 1.0;
            var load := if e.inflight > 0 then e.inflight as real else 0.0;
            EndpointCost(e, cfg) == CostFormula(load, slow, weight, e.latency as real / 1000000000.0, e.status == Degraded, cfg)
  {
    var slow, weight := Max(0.0, e.slowScore), if e.weight > 0.0 then e.weight else 1.0;
    DivideByWeight(NonNegative(e.inflight) as real, weight, 1.0 + slow);
  }

  lemma DivideByWeight(load: real, weight: real, slow: real)
    requires weight > 0.0 && slow > 0.0
    ensures weight / slow > 0.0 && load / (weight / slow) == load * slow / weight
  {
    var w := weight / slow;
    assert w * slow == weight;
    assert w > 0.0;
    assert load / w * w == load;
    var q := load / w;
    assert q * weight == load * slow by {
      assert q * weight == q * w * slow;
    }
  }

  /** `e'` is loaded, slow and degraded at least as much as `e`. */
  predicate NoBetter(e': Endpoint, e: Endpoint) {
    && e'.inflight >= e.inflight && e'.latency >= e.latency && e'.slowScore >= e.slowScore && e'.weight == e.weight
    && (e.status == Degraded ==> e'.status == Degraded)
  }

  /** An endpoint that does no better in any respect costs no less. */
  lemma CostGrows(e: Endpoint, e': Endpoint, cfg: Config)
    requires UsableConfig(cfg) && NoBetter(e', e)
    ensures EndpointCost(e', cfg) >= EndpointCost(e, cfg)
  {
    hide EndpointCost, CostFormula;
    CostMeans(e, cfg);
    CostMeans(e', cfg);
    QuotientGrows(e.latency as real, e'.latency as real, 1000000000.0);
    FormulaGrows(
      if e.inflight > 0 then e.inflight as real else 0.0, if e'.inflight > 0 then e'.inflight as real else 0.0,
      if e.slowScore > 0.0 then e.slowScore else 0.0, if e'.slowScore > 0.0 then e'.slowScore else 0.0,
      if e.weight > 0.0 then e.weight else 1.0,
      e.latency as real / 1000000000.0, e'.latency as real / 1000000000.0,
      e.status == Degraded, e'.status == Degraded, cfg);
  }

  lemma FormulaGrows(load: real, load': real, slow: real, slow': real, weight: real, seconds: real, seconds': real,
                     degraded: bool, degraded': bool, cfg: Config)
    requires UsableConfig(cfg) && weight > 0.0 && 0.0 <= load <= load' && 0.0 <= slow <= slow' && seconds <= seconds'
    requires degraded ==> degraded'
    ensures CostFormula(load, slow, weight, seconds, degraded, cfg)
         <= CostFormula(load', slow', weight, seconds', degraded', cfg)
  {
    LoadGrows(load, load', slow, slow', weight);
    TimesGrows(seconds, seconds', cfg.latencyPenalty);
    TimesGrows(slow, slow', cfg.slowPenalty);
  }

  lemma LoadGrows(load: real, load': real, slow: real, slow': real, weight: real)
    requires weight > 0.0 && 0.0 <= load <= load' && 0.0 <= slow <= slow'
    ensures load * (1.0 + slow) / weight <= load' * (1.0 + slow') / weight
  {
    ProductGrows(load, load', 1.0 + slow, 1.0 + slow');
    QuotientGrows(load * (1.0 + slow), load' * (1.0 + slow'), weight);
  }

  lemma TimesGrows(a: real, b: real, c: real)
    requires a <= b && c >= 0.0
    ensures a * c <= b * c
  {
    assert (b - a) * c >= 0.0;
  }

  lemma ProductGrows(a: real, b: real, c: real, d: real)
    requires 0.0 <= a <= b && 0.0 <= c <= d
    ensures a * c <= b * d
  {
    TimesGrows(a, b, c);
    TimesGrows(c, d, b);
  }

  lemma QuotientGrows(a: real, b: real, c: real)
    requires a <= b && c > 0.0
    ensures a / c <= b / c
  {
    var p, q := a / c, b / c;
    assert p * c == a && q * c == b;
    assert p > q ==> (p - q) * c > 0.0;
  }

  function NormalOf(es: seq<Endpoint>): seq<Endpoint> {
    if es == [] then []
    else
      var n := |es| - 1;
      NormalOf(es[..n]) + if NormalTraffic(es[n].status) then [es[n]] else []
  }

  function ProbingOf(es: seq<Endpoint>): seq<Endpoint> {
    if es == [] then []
    else
      var n := |es| - 1;
      ProbingOf(es[..n]) + if IsProbing(es[n].status) then [es[n]] else []
  }

  /** What a pick chooses from and how many draws it has used by then. */
  datatype Pool<T> = Pool(candidates: seq<T>, used: nat)

  function PoolOf<T>(normal: seq<T>, probing: seq<T>, threshold: int, draws: Draws, k: nat): Pool<T> {
    if normal == [] then Pool(probing, k)
    else if probing == [] then Pool(normal, k)
    else if threshold <= 0 then Pool(normal, k)
    else if Draw(draws, k, 100) < threshold then Pool(probing, k + 1)
    else Pool(normal, k + 1)
  }

  /** The two positions a pick compares. */
  function Pair(n: nat, draws: Draws, k: nat): (p: (nat, nat))
    requires n >= 2
    ensures p.0 < n && p.1 < n && p.0 != p.1
  {
    var a, b := Draw(draws, k, n), Draw(draws, k + 1, n - 1);
    (a, if b >= a then b + 1 else b)
  }

  /** Draws that start with `a` and then `b`. */
  function TwoDraws(k: nat, a: nat, b: nat): Draws {
    (i: nat) => if i == k then a else b
  }

  lemma SmallDraw(draws: Draws, k: nat, n: nat)
    requires draws(k) < n
    ensures Draw(draws, k, n) == draws(k)
  {
  }

  /** Of the draws a pick can make, exactly one gives each ordered pair of distinct positions. */
  lemma PairsAreEven(n: nat, k: nat, i: nat, j: nat, a: nat, b: nat)
    requires n >= 2 && i < n && j < n && i != j && a < n && b < n - 1
    ensures Pair(n, TwoDraws(k, a, b), k) == (i, j) <==> a == i && b == if j > i then j - 1 else j
  {
    hide Draw;
    SmallDraw(TwoDraws(k, a, b), k, n);
    SmallDraw(TwoDraws(k, a, b), k + 1, n - 1);
  }

  /** The draw `d` sends a pick to the probing endpoints. */
  predicate SendsToProbing<T(==)>(normal: seq<T>, probing: seq<T>, threshold: int, k: nat, d: nat) {
    PoolOf(normal, probing, threshold, TwoDraws(k, d, 0), k).candidates == probing
  }

  /** Of the hundred draws, as many choose the probing endpoints as the threshold says. */
  lemma ProbeShare<T>(normal: seq<T>, probing: seq<T>, threshold: int, k: nat)
    requires normal != [] && probing != [] && normal != probing && 0 <= threshold <= 100
    ensures |set d | 0 <= d < 100 && SendsToProbing(normal, probing, threshold, k, d)| == threshold
  {
    hide Draw;
    forall d: nat | d < 100
      ensures SendsToProbing(normal, probing, threshold, k, d) <==> d < threshold
    {
      SmallDraw(TwoDraws(k, d, 0), k, 100);
    }
    assert (set d | 0 <= d < 100 && SendsToProbing(normal, probing, threshold, k, d)) == FirstNumbers(threshold);
  }

  function FirstNumbers(n: nat): (s: set<int>)
    ensures |s| == n && forall d :: d in s <==> 0 <= d < n
  {
    if n == 0 then {} else FirstNumbers(n - 1) + {n - 1}
  }

  function Threshold(cfg: Config): int {
    (cfg.probeRatio * 100.0).Floor
  }

  /** Positive penalties and a share of the picks for probing. */
  predicate UsableConfig(cfg: Config) {
    cfg.latencyPenalty > 0.0 && cfg.slowPenalty > 0.0 && 0.0 < cfg.probeRatio <= 1.0
  }

  /** The position picked from a pool of `n`, given which of its two candidates is no costlier. */
  function Position(n: nat, draws: Draws, k: nat, costs: seq<real>): (c: nat)
    requires |costs| == n >= 1
    ensures c < n
  {
    if n == 1 then 0
    else
      var p := Pair(n, draws, k);
      if costs[p.0] <= costs[p.1] then p.0 else p.1
  }

  /** The position picked is never the strictly costliest of two or more. */
  lemma NeverCostliest(n: nat, draws: Draws, k: nat, costs: seq<real>)
    requires |costs| == n >= 2
    ensures var c := Position(n, draws, k, costs);
            exists other :: 0 <= other < n && other != c && costs[c] <= costs[other]
  {
    var p, c := Pair(n, draws, k), Position(n, draws, k, costs);
    var other := if c == p.0 then p.1 else p.0;
    assert costs[c] <= costs[other];
  }

  function Costs(es: seq<Endpoint>, cfg: Config): seq<real> {
    seq(|es|, i requires 0 <= i < |es| => EndpointCost(es[i], cfg))
  }

  class ReferencePicker {
    var endpoints: seq<Endpoint>
    const cfg: Config
    const random: Random

    constructor (endpoints: seq<Endpoint>, cfg: Config, random: Random)
      ensures this.endpoints == endpoints && this.random == random
      ensures UsableConfig(this.cfg) && (UsableConfig(cfg) ==> this.cfg == cfg)
      ensures cfg == Config(0.0, 0.0, 0.0) ==> this.cfg == CLIENT
      ensures 0 <= Threshold(this.cfg) <= 100
    {
      this.endpoints, this.random := endpoints, random;
      this.cfg := Config(
        if cfg.latencyPenalty <= 0.0 then 1.0 else cfg.latencyPenalty,
        if cfg.slowPenalty <= 0.0 then 1.0 else cfg.slowPenalty,
        if cfg.probeRatio <= 0.0 then 0.02 else if cfg.probeRatio > 1.0 then 1.0 else cfg.probeRatio);
    }

    method PickCandidates() returns (candidates: seq<Endpoint>)
      modifies random
      ensures Pool(candidates, random.used)
           == PoolOf(NormalOf(endpoints), ProbingOf(endpoints), Threshold(cfg), random.draws, old(random.used))
    {
      var normal, probing := [], [];
      for i := 0 to |endpoints|
        invariant normal == NormalOf(endpoints[..i]) && probing == ProbingOf(endpoints[..i])
        invariant random.used == old(random.used)
      {
        var e := endpoints[i];
        assert endpoints[..i + 1][..i] == endpoints[..i];
        if NormalTraffic(e.status) {
          normal := normal + [e];
        } else if IsProbing(e.status) {
          probing := probing + [e];
        }
      }
      assert endpoints[..|endpoints|] == endpoints;
      if |probing| == 0 || |normal| == 0 {
        return normal + probing;
      }
      var threshold := (cfg.probeRatio * 100.0).Floor;
      if threshold > 0 {
        var draw := random.Intn(100);
        if draw < threshold {
          return probing;
        }
      }
      return normal;
    }

    method Pick() returns (r: Option<Endpoint>)
      modifies random
      ensures r == Picked(endpoints, cfg, random.draws, old(random.used))
    {
      hide EndpointCost, PoolOf;
      var candidates := PickCandidates();
      if |candidates| == 0 {
        return None;
      }
      if |candidates| == 1 {
        return Some(candidates[0]);
      }
      var a := random.Intn(|candidates|);
      var b := random.Intn(|candidates| - 1);
      if b >= a {
        b := b + 1;
      }
      if EndpointCost(candidates[a], cfg) <= EndpointCost(candidates[b], cfg) {
        return Some(candidates[a]);
      }
      return Some(candidates[b]);
    }
  }

  function Picked(es: seq<Endpoint>, cfg: Config, draws: Draws, k: nat): Option<Endpoint> {
    var pool := PoolOf(NormalOf(es), ProbingOf(es), Threshold(cfg), draws, k);
    var n := |pool.candidates|;
    if n == 0 then None else Some(pool.candidates[Position(n, draws, pool.used, Costs(pool.candidates, cfg))])
  }

  lemma {:induction false} FiltersByStatus(es: seq<Endpoint>, e: Endpoint)
    ensures e in NormalOf(es) <==> e in es && e.status in {Unspecified, Healthy, Degraded}
    ensures e in ProbingOf(es) <==> e in es && e.status == Probing
  {
    if es != [] {
      var n := |es| - 1;
      FiltersByStatus(es[..n], e);
      assert es == es[..n] + [es[n]];
    }
  }

  /**
   A pick fails exactly when no endpoint takes traffic, and otherwise returns one that does: never an
   ejected, dead or unavailable one, and a probing one only when nothing else takes traffic or the
   first draw falls in the probing share.
   */
  lemma PickTakesTraffic(es: seq<Endpoint>, cfg: Config, draws: Draws, k: nat)
    ensures Picked(es, cfg, draws, k).None?
        <==> forall e :: e in es ==> e.status !in {Unspecified, Healthy, Degraded, Probing}
    ensures Picked(es, cfg, draws, k).Some? ==>
              var e := Picked(es, cfg, draws, k).value;
              && e in es && e.status in {Unspecified, Healthy, Degraded, Probing}
              && (e.status == Probing ==>
                    || (forall o :: o in es ==> o.status !in {Unspecified, Healthy, Degraded})
                    || draws(k) % 100 < Threshold(cfg))
  {
    hide EndpointCost, NormalOf, ProbingOf, Position;
    forall e: Endpoint
      ensures e in NormalOf(es) <==> e in es && e.status in {Unspecified, Healthy, Degraded}
      ensures e in ProbingOf(es) <==> e in es && e.status == Probing
    {
      FiltersByStatus(es, e);
    }
    var pool := PoolOf(NormalOf(es), ProbingOf(es), Threshold(cfg), draws, k).candidates;
    if pool != [] {
      assert pool[0] in pool;
    }
    assert NormalOf(es) != [] ==> NormalOf(es)[0] in NormalOf(es);
    assert ProbingOf(es) != [] ==> ProbingOf(es)[0] in ProbingOf(es);
  }

  // ---------------------------------------------------------------- the client's picker

  /** One ready connection as the resolver describes it. */
  datatype Target = Target(conn: string, address: string, status: Code, slowScore: real)

  /** The live counters of an address. */
  datatype Stats = Stats(inflight: int, latency: int)

  datatype Item = Item(conn: string, address: string, status: Code, inflightPenalty: real, latencyPenalty: real, staticCost: real)

  const PROBE_THRESHOLD := 2

  predicate Usable(t: Target) {
    Routable(Normalized(t.status))
  }

  function ItemOf(t: Target): Item {
    var status, slow := Normalized(t.status), Max(0.0, t.slowScore);
    Item(t.conn, t.address, status, 1.0 / EffectiveWeight(1.0, slow), 1.0,
         slow + if status == Degraded then 1.0 else 0.0)
  }

  function ItemCost(i: Item, stats: string -> Stats): real {
    NonNegative(stats(i.address).inflight) as real * i.inflightPenalty
    + Seconds(stats(i.address).latency) * i.latencyPenalty
    + i.staticCost
  }

  datatype Prepared = Prepared(items: seq<Item>, normal: seq<nat>, probing: seq<nat>)

  function Prepare(ts: seq<Target>): (p: Prepared)
    ensures Indexes(p, p.normal) && Indexes(p, p.probing)
  {
    if ts == [] then Prepared([], [], [])
    else
      var n := |ts| - 1;
      var p, t := Prepare(ts[..n]), ts[n];
      if !Usable(t) then p
      else
        var status := Normalized(t.status);
        Prepared(p.items + [ItemOf(t)],
                 if NormalTraffic(status) then p.normal + [|p.items|] else p.normal,
                 if !NormalTraffic(status) && IsProbing(status) then p.probing + [|p.items|] else p.probing)
  }

  predicate Indexes(p: Prepared, idx: seq<nat>) {
    forall j :: 0 <= j < |idx| ==> idx[j] < |p.items|
  }

  function ItemCosts(p: Prepared, idx: seq<nat>, stats: string -> Stats): seq<real>
    requires Indexes(p, idx)
  {
    seq(|idx|, j requires 0 <= j < |idx| => ItemCost(p.items[idx[j]], stats))
  }

  function PickedItem(p: Prepared, stats: string -> Stats, draws: Draws, k: nat): Option<Item>
    requires Indexes(p, p.normal) && Indexes(p, p.probing)
  {
    PoolIndexes(p, draws, k);
    var pool := PoolOf(p.normal, p.probing, PROBE_THRESHOLD, draws, k);
    var n := |pool.candidates|;
    if n == 0 then None
    else Some(p.items[pool.candidates[Position(n, draws, pool.used, ItemCosts(p, pool.candidates, stats))]])
  }

  lemma PoolIndexes(p: Prepared, draws: Draws, k: nat)
    requires Indexes(p, p.normal) && Indexes(p, p.probing)
    ensures Indexes(p, PoolOf(p.normal, p.probing, PROBE_THRESHOLD, draws, k).candidates)
  {
  }

  class ClientPicker {
    var prepared: Prepared
    const random: Random

    /** Build: runs once per resolver update. */
    constructor (targets: seq<Target>, random: Random)
      ensures prepared == Prepare(targets) && this.random == random
      ensures Indexes(prepared, prepared.normal) && Indexes(prepared, prepared.probing)
    {
      var items, normal: seq<nat>, probing: seq<nat> := [], [], [];
      for i := 0 to |targets|
        invariant Prepared(items, normal, probing) == Prepare(targets[..i])
      {
        assert targets[..i + 1][..i] == targets[..i];
        var t := targets[i];
        if !Usable(t) {
          continue;
        }
        var item := ItemOf(t);
        var idx := |items|;
        items := items + [item];
        if NormalTraffic(item.status) {
          normal := normal + [idx];
        } else if IsProbing(item.status) {
          probing := probing + [idx];
        }
      }
      assert targets[..|targets|] == targets;
      this.prepared, this.random := Prepared(items, normal, probing), random;
    }

    method PickCandidateIndexes() returns (candidates: seq<nat>)
      modifies random
      ensures Pool(candidates, random.used)
           == PoolOf(prepared.normal, prepared.probing, PROBE_THRESHOLD, random.draws, old(random.used))
    {
      if |prepared.normal| == 0 {
        return prepared.probing;
      }
      if |prepared.probing| == 0 {
        return prepared.normal;
      }
      var draw := random.Intn(100);
      if draw < PROBE_THRESHOLD {
        return prepared.probing;
      }
      return prepared.normal;
    }

    method PickItem(stats: string -> Stats) returns (r: Option<Item>)
      requires Indexes(prepared, prepared.normal) && Indexes(prepared, prepared.probing)
      modifies random
      ensures r == PickedItem(prepared, stats, random.draws, old(random.used))
    {
      hide ItemCost, PoolOf;
      var candidates := PickCandidateIndexes();
      PoolIndexes(prepared, random.draws, old(random.used));
      if |candidates| == 0 {
        return None;
      }
      if |candidates| == 1 {
        return Some(prepared.items[candidates[0]]);
      }
      var aPos := random.Intn(|candidates|);
      var bPos := random.Intn(|candidates| - 1);
      if bPos >= aPos {
        bPos := bPos + 1;
      }
      var a, b := prepared.items[candidates[aPos]], prepared.items[candidates[bPos]];
      if ItemCost(a, stats) <= ItemCost(b, stats) {
        return Some(a);
      }
      return Some(b);
    }
  }

  // ---------------------------------------------------------------- refinement

  /** The settings the client's picker has built in. */
  const CLIENT := Config(1.0, 1.0, 0.02)

  /** A target as the reference sees it, with the live counters filled in. */
  function Seen(t: Target, stats: string -> Stats): Endpoint {
    Endpoint(t.conn, t.status, stats(t.address).inflight, stats(t.address).latency, 1.0, t.slowScore)
  }

  function SeenAll(ts: seq<Target>, stats: string -> Stats): seq<Endpoint> {
    seq(|ts|, i requires 0 <= i < |ts| => Seen(ts[i], stats))
  }

  lemma SameCost(t: Target, stats: string -> Stats)
    ensures ItemCost(ItemOf(t), stats) == EndpointCost(Seen(t, stats), CLIENT)
  {
    var w := EffectiveWeight(1.0, Max(0.0, t.slowScore));
    var x := NonNegative(stats(t.address).inflight) as real;
    DivideIsMultiply(x, w);
  }

  lemma DivideIsMultiply(x: real, w: real)
    requires w > 0.0
    ensures x * (1.0 / w) == x / w
  {
    assert x / w * w == x;
    assert x * (1.0 / w) * w == x * ((1.0 / w) * w);
  }

  /** Position by position, an index list points at the items of these endpoints, at the same cost. */
  ghost predicate Mirrors(p: Prepared, idx: seq<nat>, es: seq<Endpoint>, stats: string -> Stats) {
    && |idx| == |es| && Indexes(p, idx)
    && forall j :: 0 <= j < |idx| ==>
         p.items[idx[j]].conn == es[j].id && ItemCost(p.items[idx[j]], stats) == EndpointCost(es[j], CLIENT)
  }

  lemma {:induction false} PreparedMirrors(ts: seq<Target>, stats: string -> Stats)
    ensures Mirrors(Prepare(ts), Prepare(ts).normal, NormalOf(SeenAll(ts, stats)), stats)
    ensures Mirrors(Prepare(ts), Prepare(ts).probing, ProbingOf(SeenAll(ts, stats)), stats)
  {
    hide ItemCost, EndpointCost;
    if ts != [] {
      var n := |ts| - 1;
      PreparedMirrors(ts[..n], stats);
      SameCost(ts[n], stats);
      assert SeenAll(ts, stats)[..n] == SeenAll(ts[..n], stats);
    }
  }

  /** The prepared picker picks the connection the reference picks, from the same draws. */
  lemma ClientPicksAsReference(ts: seq<Target>, stats: string -> Stats, draws: Draws, k: nat)
    ensures var client, reference :=
              PickedItem(Prepare(ts), stats, draws, k), Picked(SeenAll(ts, stats), CLIENT, draws, k);
            match client
            case None => reference == None
            case Some(item) => reference.Some? && item.conn == reference.value.id
                               && ItemCost(item, stats) == EndpointCost(reference.value, CLIENT)
  {
    hide Prepare, NormalOf, ProbingOf, ItemCost, EndpointCost, Pair;
    PreparedMirrors(ts, stats);
    assert Threshold(CLIENT) == PROBE_THRESHOLD;
    var p, es := Prepare(ts), SeenAll(ts, stats);
    var pool := PoolOf(p.normal, p.probing, PROBE_THRESHOLD, draws, k);
    var pool' := PoolOf(NormalOf(es), ProbingOf(es), PROBE_THRESHOLD, draws, k);
    assert Mirrors(p, pool.candidates, pool'.candidates, stats) && pool.used == pool'.used;
    assert ItemCosts(p, pool.candidates, stats) == Costs(pool'.candidates, CLIENT);
  }

  /** The reference never picks the strictly costliest of two or more candidates. */
  lemma ReferenceSparesCostliest(es: seq<Endpoint>, cfg: Config, draws: Draws, k: nat) returns (c: nat, other: nat)
    requires |PoolOf(NormalOf(es), ProbingOf(es), Threshold(cfg), draws, k).candidates| >= 2
    ensures var pool := PoolOf(NormalOf(es), ProbingOf(es), Threshold(cfg), draws, k).candidates;
            && c < |pool| && other < |pool| && c != other && Picked(es, cfg, draws, k) == Some(pool[c])
            && EndpointCost(pool[c], cfg) <= EndpointCost(pool[other], cfg)
  {
    hide EndpointCost, PoolOf, Position;
    var pool := PoolOf(NormalOf(es), ProbingOf(es), Threshold(cfg), draws, k);
    var n, costs := |pool.candidates|, Costs(pool.candidates, cfg);
    NeverCostliest(n, draws, pool.used, costs);
    c := Position(n, draws, pool.used, costs);
    other :| 0 <= other < n && other != c && costs[c] <= costs[other];
  }

  /** Nor does the client's picker. */
  lemma ClientSparesCostliest(p: Prepared, stats: string -> Stats, draws: Draws, k: nat) returns (c: nat, other: nat)
    requires Indexes(p, p.normal) && Indexes(p, p.probing)
    requires |PoolOf(p.normal, p.probing, PROBE_THRESHOLD, draws, k).candidates| >= 2
    ensures var pool := PoolOf(p.normal, p.probing, PROBE_THRESHOLD, draws, k).candidates;
            && c < |pool| && other < |pool| && c != other && Indexes(p, pool)
            && PickedItem(p, stats, draws, k) == Some(p.items[pool[c]])
            && ItemCost(p.items[pool[c]], stats) <= ItemCost(p.items[pool[other]], stats)
  {
    hide ItemCost, PoolOf, Position;
    PoolIndexes(p, draws, k);
    var pool := PoolOf(p.normal, p.probing, PROBE_THRESHOLD, draws, k);
    var n, costs := |pool.candidates|, ItemCosts(p, pool.candidates, stats);
    NeverCostliest(n, draws, pool.used, costs);
    c := Position(n, draws, pool.used, costs);
    other :| 0 <= other < n && other != c && costs[c] <= costs[other];
  }
}
