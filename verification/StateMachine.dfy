/**
 The endpoint health state machine: degrade and eject after consecutive slow windows, probe after
 the ejection time, recover on a passing probe. A window is one `Apply` call. Time 0 is the zero
 time; scores and rates are reals.
 */
module StateMachine {
  import opened Status

  datatype Config = Config(
    degradedThreshold: real,
    ejectThreshold: real,
    consecutiveWindows: int,
    ejectionDuration: int,
    recoveryThreshold: real,
    probeSuccessThreshold: real)

  const DEFAULTS := Config(1.5, 2.5, 3, 30_000_000_000, 1.0, 0.95)

  /** Every field of `cfg` that is set, the default elsewhere. */
  function WithDefaults(cfg: Config): (c: Config)
    ensures Usable(c)
  {
    Overlay(DEFAULTS, cfg)
  }

  /** `base` with every field that `over` sets. */
  function Overlay(base: Config, over: Config): Config {
    Config(
      if over.degradedThreshold > 0.0 then over.degradedThreshold else base.degradedThreshold,
      if over.ejectThreshold > 0.0 then over.ejectThreshold else base.ejectThreshold,
      if over.consecutiveWindows > 0 then over.consecutiveWindows else base.consecutiveWindows,
      if over.ejectionDuration > 0 then over.ejectionDuration else base.ejectionDuration,
      if over.recoveryThreshold > 0.0 then over.recoveryThreshold else base.recoveryThreshold,
      if over.probeSuccessThreshold > 0.0 then over.probeSuccessThreshold else base.probeSuccessThreshold)
  }

  function Resolve(base: Config, over: Config): (c: Config)
    ensures Usable(c)
  {
    Overlay(WithDefaults(base), over)
  }

  /** One setting: the override's if it sets it, else the base's, else the default. */
  predicate Chosen<T(==)>(c: T, over: T, overSets: bool, base: T, baseSets: bool, default_: T) {
    && (overSets ==> c == over)
    && (!overSets && baseSets ==> c == base)
    && (!overSets && !baseSets ==> c == default_)
  }

  /** Every setting of a resolved config, on its own. */
  lemma ResolveChooses(base: Config, over: Config)
    ensures var c := Resolve(base, over);
            && Chosen(c.degradedThreshold, over.degradedThreshold, over.degradedThreshold > 0.0,
                      base.degradedThreshold, base.degradedThreshold > 0.0, 1.5)
            && Chosen(c.ejectThreshold, over.ejectThreshold, over.ejectThreshold > 0.0,
                      base.ejectThreshold, base.ejectThreshold > 0.0, 2.5)
            && Chosen(c.consecutiveWindows, over.consecutiveWindows, over.consecutiveWindows > 0,
                      base.consecutiveWindows, base.consecutiveWindows > 0, 3)
            && Chosen(c.ejectionDuration, over.ejectionDuration, over.ejectionDuration > 0,
                      base.ejectionDuration, base.ejectionDuration > 0, 30_000_000_000)
            && Chosen(c.recoveryThreshold, over.recoveryThreshold, over.recoveryThreshold > 0.0,
                      base.recoveryThreshold, base.recoveryThreshold > 0.0, 1.0)
            && Chosen(c.probeSuccessThreshold, over.probeSuccessThreshold, over.probeSuccessThreshold > 0.0,
                      base.probeSuccessThreshold, base.probeSuccessThreshold > 0.0, 0.95)
  {
  }

  predicate Usable(cfg: Config) {
    && cfg.degradedThreshold > 0.0 && cfg.ejectThreshold > 0.0 && cfg.consecutiveWindows > 0
    && cfg.ejectionDuration > 0 && cfg.recoveryThreshold > 0.0 && cfg.probeSuccessThreshold > 0.0
  }

  datatype Health = Health(
    service: string,
    instanceId: string,
    address: string,
    epoch: string,
    state: Code,
    slowScore: real,
    slowWindows: int,
    ejectWindows: int,
    lastTransitionAt: int,
    ejectedAt: int,
    updatedAt: int)

  function NewHealth(service: string, instanceId: string, address: string, epoch: string): Health {
    Health(service, instanceId, address, epoch, Healthy, 0.0, 0, 0, 0, 0, 0)
  }

  /** `wall` is what the system clock says when the caller gives no time. */
  datatype Input = Input(now: int, wall: int, slowScore: real, successRate: real)

  function TimeOf(input: Input): (t: int)
    ensures t in {input.now, input.wall} && (t != input.now ==> input.now == 0) && (t != input.wall ==> input.now != 0)
  {
    if input.now == 0 then input.wall else input.now
  }

  function Transitioned(h: Health, next: Code, now: int): Health {
    if h.state == next then h
    else h.(state := next, lastTransitionAt := now, slowWindows := 0, ejectWindows := 0,
            ejectedAt := if next == Ejected then now else if next == Healthy then 0 else h.ejectedAt)
  }

  /** One window counted while in traffic: HEALTHY, DEGRADED or any state the machine does not know. */
  function Counted(cfg: Config, h: Health, score: real): Health {
    if score >= cfg.ejectThreshold then
      h.(ejectWindows := h.ejectWindows + 1, slowWindows := h.slowWindows + 1)
    else
      h.(ejectWindows := 0, slowWindows := if score >= cfg.degradedThreshold then h.slowWindows + 1 else 0)
  }

  function Applied(cfg: Config, h: Health, input: Input): Health {
    var now, score := TimeOf(input), input.slowScore;
    var h := h.(state := Normalized(h.state), slowScore := score);
    if h.state == Ejected then
      if h.ejectedAt != 0 && now - h.ejectedAt >= cfg.ejectionDuration then Transitioned(h, Probing, now) else h
    else if h.state == Probing then
      if input.successRate < cfg.probeSuccessThreshold || score >= cfg.degradedThreshold then Transitioned(h, Ejected, now)
      else if score <= cfg.recoveryThreshold then Transitioned(h, Healthy, now)
      else h
    else
      var c := Counted(cfg, h, score);
      if c.ejectWindows >= cfg.consecutiveWindows then Transitioned(c, Ejected, now)
      else if c.slowWindows >= cfg.consecutiveWindows then Transitioned(c, Degraded, now)
      else if c.state == Degraded && score <= cfg.recoveryThreshold then Transitioned(c, Healthy, now)
      else c
  }

  /** The record the machine mutates in place. */
  class Endpoint {
    var health: Health

    constructor (health: Health)
      ensures this.health == health
    {
      this.health := health;
    }

    method Transition(next: Code, now: int)
      modifies this
      ensures health == Transitioned(old(health), next, now)
    {
      if health.state == next {
        return;
      }
      health := health.(state := next, lastTransitionAt := now);
      health := health.(slowWindows := 0, ejectWindows := 0);
      if next == Ejected {
        health := health.(ejectedAt := now);
      }
      if next == Healthy {
        health := health.(ejectedAt := 0);
      }
    }

    method Apply(config: Config, input: Input)
      modifies this
      ensures health == Applied(WithDefaults(config), old(health), input)
    {
      var cfg := WithDefaults(config);
      var now := input.now;
      if now == 0 {
        now := input.wall;
      }
      if health.state == Unspecified {
        health := health.(state := Healthy);
      }
      health := health.(slowScore := input.slowScore);
      match health.state {
        case Ejected =>
          if health.ejectedAt != 0 && now - health.ejectedAt >= cfg.ejectionDuration {
            Transition(Probing, now);
          }
          return;
        case Probing =>
          if input.successRate < cfg.probeSuccessThreshold || input.slowScore >= cfg.degradedThreshold {
            Transition(Ejected, now);
            return;
          }
          if input.slowScore <= cfg.recoveryThreshold {
            Transition(Healthy, now);
          }
          return;
        case _ =>
      }
      if input.slowScore >= cfg.ejectThreshold {
        health := health.(ejectWindows := health.ejectWindows + 1);
        health := health.(slowWindows := health.slowWindows + 1);
      } else {
        health := health.(ejectWindows := 0);
        if input.slowScore >= cfg.degradedThreshold {
          health := health.(slowWindows := health.slowWindows + 1);
        } else {
          health := health.(slowWindows := 0);
        }
      }
      if health.ejectWindows >= cfg.consecutiveWindows {
        Transition(Ejected, now);
        return;
      }
      if health.slowWindows >= cfg.consecutiveWindows {
        Transition(Degraded, now);
        return;
      }
      if health.state == Degraded && input.slowScore <= cfg.recoveryThreshold {
        Transition(Healthy, now);
      }
    }
  }

  // ---------------------------------------------------------------- whole runs

  datatype Node = Node(cfg: Config, health: Health)

  datatype Event =
    | Window(input: Input)                 // Update or Tick applies one window
    | Reconfigured(cfg: Config)            // hot-applied config: counters reset
    | Replaced(health: Health)             // a new owner: a fresh endpoint

  predicate Enabled(e: Event) {
    match e
    case Window(input) => TimeOf(input) != 0
    case Reconfigured(cfg) => Usable(cfg)
    case Replaced(h) => h == NewHealth(h.service, h.instanceId, h.address, h.epoch)
  }

  function Next(n: Node, e: Event): Node {
    match e
    case Window(input) => n.(health := Applied(n.cfg, n.health, input))
    case Reconfigured(cfg) => Node(cfg, n.health.(slowWindows := 0, ejectWindows := 0))
    case Replaced(h) => n.(health := h)
  }

  ghost predicate IsRun(events: seq<Event>, nodes: seq<Node>) {
    && |nodes| == |events| + 1 && Usable(nodes[0].cfg)
    && (exists s, i, a, e :: nodes[0].health == NewHealth(s, i, a, e))
    && forall k :: 0 <= k < |events| ==> Enabled(events[k]) && nodes[k + 1] == Next(nodes[k], events[k])
  }

  predicate Inv(n: Node) {
    var h := n.health;
    && Usable(n.cfg) && h.state in {Healthy, Degraded, Ejected, Probing}
    && 0 <= h.ejectWindows <= h.slowWindows
    && (h.state == Healthy ==> h.slowWindows < n.cfg.consecutiveWindows)
    && (h.state == Degraded ==> h.ejectWindows < n.cfg.consecutiveWindows)
    && (h.state in {Ejected, Probing} ==> h.slowWindows == 0 && h.ejectedAt != 0)
  }

  lemma {:induction false} RunKeepsInv(events: seq<Event>, nodes: seq<Node>, k: nat)
    requires IsRun(events, nodes) && k <= |events|
    ensures Inv(nodes[k])
  {
    if k > 0 {
      RunKeepsInv(events, nodes, k - 1);
      assert nodes[k] == Next(nodes[k - 1], events[k - 1]) && Enabled(events[k - 1]);
    }
  }

  /** Over every run: HEALTHY keeps both counters below the limit, DEGRADED the eject counter. */
  lemma CountersBelowLimit(events: seq<Event>, nodes: seq<Node>, k: nat)
    requires IsRun(events, nodes) && k <= |events|
    ensures var n, h := nodes[k], nodes[k].health;
            && h.state in {Healthy, Degraded, Ejected, Probing}
            && (h.state == Healthy ==> h.slowWindows < n.cfg.consecutiveWindows && h.ejectWindows < n.cfg.consecutiveWindows)
            && (h.state == Degraded ==> h.ejectWindows < n.cfg.consecutiveWindows)
  {
    RunKeepsInv(events, nodes, k);
  }

  /** Step `k` is a window whose score reaches `threshold`, spent in traffic without a transition. */
  predicate Reaches(events: seq<Event>, nodes: seq<Node>, k: nat, eject: bool)
    requires |nodes| == |events| + 1 && k < |events|
  {
    && events[k].Window? && nodes[k].health.state in {Healthy, Degraded} && nodes[k + 1].health.state == nodes[k].health.state
    && (events[k].input.slowScore >= nodes[k].cfg.ejectThreshold
        || (!eject && events[k].input.slowScore >= nodes[k].cfg.degradedThreshold))
  }

  /** `n` is the length of the unbroken run of such windows that ends at step `k`. */
  ghost predicate RunLength(events: seq<Event>, nodes: seq<Node>, k: nat, eject: bool, n: int)
    requires |nodes| == |events| + 1 && k <= |events|
  {
    && 0 <= n <= k
    && (forall i :: k - n <= i < k ==> Reaches(events, nodes, i, eject))
    && (n < k ==> !Reaches(events, nodes, k - n - 1, eject))
  }

  /** One step: a counter goes up by one on a qualifying window and is zero after anything else. */
  lemma OneMoreWindow(events: seq<Event>, nodes: seq<Node>, k: nat)
    requires IsRun(events, nodes) && k < |events| && Inv(nodes[k])
    ensures nodes[k + 1].health.slowWindows
         == if Reaches(events, nodes, k, false) then nodes[k].health.slowWindows + 1 else 0
    ensures nodes[k + 1].health.ejectWindows
         == if Reaches(events, nodes, k, true) then nodes[k].health.ejectWindows + 1 else 0
  {
    assert nodes[k + 1] == Next(nodes[k], events[k]) && Enabled(events[k]);
  }

  /** Each counter is exactly the length of the current run of qualifying windows since the last transition or reset. */
  lemma {:induction false} CountersAreRunLengths(events: seq<Event>, nodes: seq<Node>, k: nat)
    requires IsRun(events, nodes) && k <= |events|
    ensures RunLength(events, nodes, k, false, nodes[k].health.slowWindows)
    ensures RunLength(events, nodes, k, true, nodes[k].health.ejectWindows)
  {
    hide Reaches, Inv, Applied, Next;
    if k > 0 {
      CountersAreRunLengths(events, nodes, k - 1);
      RunKeepsInv(events, nodes, k - 1);
      OneMoreWindow(events, nodes, k - 1);
    }
  }

  /**
   The last `consecutiveWindows` windows, window `k` included, all reach the threshold, taken in
   traffic with no transition, reset or replacement in between.
   */
  ghost predicate FullRun(events: seq<Event>, nodes: seq<Node>, k: nat, eject: bool)
    requires |nodes| == |events| + 1 && k < |events| && events[k].Window?
  {
    var cfg, score := nodes[k].cfg, events[k].input.slowScore;
    && cfg.consecutiveWindows <= k + 1
    && (score >= cfg.ejectThreshold || (!eject && score >= cfg.degradedThreshold))
    && forall i :: 0 <= i && k + 1 - cfg.consecutiveWindows <= i < k ==> Reaches(events, nodes, i, eject)
  }

  lemma FullRunIsCount(events: seq<Event>, nodes: seq<Node>, k: nat, eject: bool, n: int)
    requires |nodes| == |events| + 1 && k < |events| && events[k].Window? && nodes[k].cfg.consecutiveWindows > 0
    requires RunLength(events, nodes, k, eject, n)
    ensures var cfg, score := nodes[k].cfg, events[k].input.slowScore;
            FullRun(events, nodes, k, eject)
            <==> (score >= cfg.ejectThreshold || (!eject && score >= cfg.degradedThreshold)) && n + 1 >= cfg.consecutiveWindows
  {
    hide Reaches;
    assert n < k ==> !Reaches(events, nodes, k - n - 1, eject);
  }

  /**
   Over every run, a window taken in traffic ejects exactly after a full run of windows that reach the
   eject threshold. Otherwise it leaves the endpoint degraded exactly after a full run of slow windows,
   or if it was degraded and the score is above the recovery threshold, and healthy in all other cases.
   */
  lemma TrafficWindowDecides(events: seq<Event>, nodes: seq<Node>, k: nat)
    requires IsRun(events, nodes) && k < |events| && events[k].Window? && nodes[k].health.state in {Healthy, Degraded}
    ensures var before, after := nodes[k].health.state, nodes[k + 1].health.state;
            var recovers := events[k].input.slowScore <= nodes[k].cfg.recoveryThreshold;
            var ejects, degrades := FullRun(events, nodes, k, true), FullRun(events, nodes, k, false);
            && (after == Ejected <==> ejects)
            && (after == Degraded <==> !ejects && (degrades || (before == Degraded && !recovers)))
            && (after == Healthy <==> !ejects && !degrades && (before == Healthy || recovers))
  {
    RunKeepsInv(events, nodes, k);
    CountersAreRunLengths(events, nodes, k);
    FullRunIsCount(events, nodes, k, false, nodes[k].health.slowWindows);
    FullRunIsCount(events, nodes, k, true, nodes[k].health.ejectWindows);
    assert nodes[k + 1] == Next(nodes[k], events[k]);
    hide FullRun, RunLength, Reaches, IsRun;
  }

  /** A probe fails on a low success rate or a slow score, passes on a recovered score, and else goes on. */
  lemma ProbeWindowDecides(events: seq<Event>, nodes: seq<Node>, k: nat)
    requires IsRun(events, nodes) && k < |events| && events[k].Window? && nodes[k].health.state == Probing
    ensures var after, cfg, input := nodes[k + 1].health.state, nodes[k].cfg, events[k].input;
            var fails := input.successRate < cfg.probeSuccessThreshold || input.slowScore >= cfg.degradedThreshold;
            && (after == Ejected <==> fails)
            && (after == Healthy <==> !fails && input.slowScore <= cfg.recoveryThreshold)
            && (after == Probing <==> !fails && input.slowScore > cfg.recoveryThreshold)
  {
    assert nodes[k + 1] == Next(nodes[k], events[k]);
  }

  /** An ejection ends, in probing, with the first window that comes at least its duration after the window that began it. */
  lemma EjectedWindowDecides(events: seq<Event>, nodes: seq<Node>, k: nat) returns (at: nat)
    requires IsRun(events, nodes) && k < |events| && events[k].Window? && nodes[k].health.state == Ejected
    ensures at < k && events[at].Window? && nodes[at].health.state != Ejected
    ensures forall i :: at < i <= k ==> nodes[i].health.state == Ejected
    ensures var served := TimeOf(events[k].input) - TimeOf(events[at].input) >= nodes[k].cfg.ejectionDuration;
            nodes[k + 1].health.state == if served then Probing else Ejected
  {
    RunKeepsInv(events, nodes, k);
    at := EjectedSince(events, nodes, k);
    assert nodes[k + 1] == Next(nodes[k], events[k]);
  }

  /** Every window publishes its score; a transition is stamped with its time and starts both counters afresh. */
  lemma WindowIsRecorded(events: seq<Event>, nodes: seq<Node>, k: nat)
    requires IsRun(events, nodes) && k < |events| && events[k].Window?
    ensures var before, after := nodes[k].health, nodes[k + 1].health;
            && after.slowScore == events[k].input.slowScore
            && (after.state != before.state ==>
                  after.lastTransitionAt == TimeOf(events[k].input) && after.slowWindows == after.ejectWindows == 0)
            && (after.state == before.state ==> after.lastTransitionAt == before.lastTransitionAt)
            && (after.state == Healthy && before.state != Healthy ==> after.ejectedAt == 0)
            && after.(state := before.state, slowScore := before.slowScore, slowWindows := before.slowWindows,
                      ejectWindows := before.ejectWindows, lastTransitionAt := before.lastTransitionAt,
                      ejectedAt := before.ejectedAt) == before
  {
    RunKeepsInv(events, nodes, k);
    assert nodes[k + 1] == Next(nodes[k], events[k]);
  }

  /** An ejected endpoint remembers the window that ejected it. */
  lemma {:induction false} EjectedSince(events: seq<Event>, nodes: seq<Node>, k: nat) returns (at: nat)
    requires IsRun(events, nodes) && k <= |events| && nodes[k].health.state == Ejected
    ensures at < k && events[at].Window? && nodes[at].health.state != Ejected
    ensures TimeOf(events[at].input) == nodes[k].health.ejectedAt
    ensures forall i :: at < i <= k ==> nodes[i].health.state == Ejected
  {
    assert k > 0;
    RunKeepsInv(events, nodes, k - 1);
    assert nodes[k] == Next(nodes[k - 1], events[k - 1]) && Enabled(events[k - 1]);
    if nodes[k - 1].health.state == Ejected {
      at := EjectedSince(events, nodes, k - 1);
    } else {
      at := k - 1;
    }
  }

  /**
   Ejection is left only for probing, and never before the configured time since the window that
   ejected the endpoint has passed (a replaced owner starts afresh).
   */
  lemma EjectionIsServed(events: seq<Event>, nodes: seq<Node>, k: nat) returns (at: nat)
    requires IsRun(events, nodes) && k < |events| && !events[k].Replaced?
    requires nodes[k].health.state == Ejected && nodes[k + 1].health.state != Ejected
    ensures nodes[k + 1].health.state == Probing && events[k].Window?
    ensures at < k && events[at].Window? && nodes[at].health.state != Ejected
    ensures forall i :: at < i <= k ==> nodes[i].health.state == Ejected
    ensures TimeOf(events[k].input) - TimeOf(events[at].input) >= nodes[k].cfg.ejectionDuration
  {
    RunKeepsInv(events, nodes, k);
    at := EjectedSince(events, nodes, k);
    assert nodes[k + 1] == Next(nodes[k], events[k]);
  }

  /** Step `k` is a passing probe. */
  predicate PassingProbe(events: seq<Event>, nodes: seq<Node>, k: nat)
    requires |nodes| == |events| + 1 && k < |events|
  {
    && events[k].Window? && nodes[k].health.state == Probing && nodes[k + 1].health.state == Healthy
    && events[k].input.successRate >= nodes[k].cfg.probeSuccessThreshold
    && events[k].input.slowScore < nodes[k].cfg.degradedThreshold
    && events[k].input.slowScore <= nodes[k].cfg.recoveryThreshold
  }

  lemma {:induction false} OutOfTrafficUntilProbe(events: seq<Event>, nodes: seq<Node>, i: nat, j: nat)
    requires IsRun(events, nodes) && i <= j <= |events| && nodes[i].health.state == Ejected
    requires forall k :: i <= k < j ==> !events[k].Replaced?
    ensures nodes[j].health.state in {Ejected, Probing} || exists k :: i <= k < j && PassingProbe(events, nodes, k)
    decreases j
  {
    if i < j {
      OutOfTrafficUntilProbe(events, nodes, i, j - 1);
      assert nodes[j] == Next(nodes[j - 1], events[j - 1]) && Enabled(events[j - 1]);
      if nodes[j - 1].health.state in {Ejected, Probing} && nodes[j].health.state !in {Ejected, Probing} {
        assert PassingProbe(events, nodes, j - 1);
      }
    }
  }

  /** An ejected endpoint that is healthy again, and was not replaced, has passed a probe in between. */
  lemma HealthyOnlyAfterProbe(events: seq<Event>, nodes: seq<Node>, i: nat, j: nat)
    requires IsRun(events, nodes) && i <= j <= |events|
    requires nodes[i].health.state == Ejected && nodes[j].health.state in {Healthy, Degraded}
    requires forall k :: i <= k < j ==> !events[k].Replaced?
    ensures exists k :: i <= k < j && PassingProbe(events, nodes, k)
  {
    OutOfTrafficUntilProbe(events, nodes, i, j);
  }
}
