/**
 The health manager runs one state machine per endpoint: in a run without merged snapshots, which bring
 in records of other controllers, every record the manager holds is where a run of the state machine
 from a fresh endpoint ends. What holds over all runs of the machine then holds of the manager.
 */
module ManagerRuns {
  import opened SlowScore
  import opened StateMachine
  import opened Status
  import opened M = HealthManagers

  /** Some run of the state machine from a fresh endpoint ends here. */
  ghost predicate EndsRun(n: Node) {
    exists events, nodes :: StateMachine.IsRun(events, nodes) && nodes[|events|] == n
  }

  lemma FreshEndsRun(cfg: Config, service: string, instanceId: string)
    requires Usable(cfg)
    ensures EndsRun(Node(cfg, NewHealth(service, instanceId, "", "")))
  {
    var events: seq<Event>, nodes := [], [Node(cfg, NewHealth(service, instanceId, "", ""))];
    assert StateMachine.IsRun(events, nodes) && nodes[|events|] == nodes[0];
  }

  lemma OneMoreEvent(n: Node, e: Event)
    requires EndsRun(n) && StateMachine.Enabled(e)
    ensures EndsRun(Next(n, e))
  {
    hide Next;
    var events, nodes :| StateMachine.IsRun(events, nodes) && nodes[|events|] == n;
    var more, longer := events + [e], nodes + [Next(n, e)];
    assert forall k :: 0 <= k < |events| ==> more[k] == events[k];
    assert forall k :: 0 <= k < |nodes| ==> longer[k] == nodes[k];
    assert StateMachine.IsRun(more, longer) && longer[|more|] == Next(n, e);
  }

  function NodeOf(base: Config, overrides: map<string, Config>, h: Health): Node {
    Node(Configured(base, overrides, h.service), Core(h))
  }

  /** Every record is the end of a run of its endpoint's state machine. */
  ghost predicate Tracked(base: Config, overrides: map<string, Config>, health: Table) {
    forall key :: key in health ==> EndsRun(NodeOf(base, overrides, health[key]))
  }

  predicate Timed(t: Clock) {
    t.now != 0 || t.wall != 0
  }

  lemma ReportTracks(health: Table, p: Progress, base: Config, overrides: map<string, Config>, t: Clock,
                     scores: map<string, Score>, s: Sample)
    requires SoundProgress(health, p) && Tracked(base, overrides, p.health) && SlashFree(s.service) && Timed(t)
    ensures Tracked(base, overrides, Reported(p, base, overrides, t, scores, s).health)
  {
    hide EndsRun, Configured, Next, SlashFree, Reported, Core;
    if s.service != "" && s.instanceId != "" {
      var key := ScoreKey(s.service, s.instanceId);
      var cfg := Configured(base, overrides, s.service);
      var score := if key in scores then scores[key].total else 0.0;
      ReportIsWindow(p, base, overrides, t, scores, s);
      ReportedRest(health, p, base, overrides, t, scores, s);
      FreshEndsRun(cfg, s.service, s.instanceId);
      OneMoreEvent(Node(cfg, NewHealth(s.service, s.instanceId, "", "")), Window(Input(t.now, t.wall, score, SuccessRate(s))));
      if key in p.health {
        ScoreKeyInjective(p.health[key].service, p.health[key].instanceId, s.service, s.instanceId);
        OneMoreEvent(NodeOf(base, overrides, p.health[key]), Window(Input(t.now, t.wall, score, SuccessRate(s))));
      }
    } else {
      UnnamedIsSkipped(p, base, overrides, t, scores, s);
    }
  }

  lemma UnnamedIsSkipped(p: Progress, base: Config, overrides: map<string, Config>, t: Clock,
                         scores: map<string, Score>, s: Sample)
    requires s.service == "" || s.instanceId == ""
    ensures Reported(p, base, overrides, t, scores, s) == p
  {
  }

  /** Only the sample's own record changes, and it keeps the sample's service. */
  lemma ReportedRest(health: Table, p: Progress, base: Config, overrides: map<string, Config>, t: Clock,
                     scores: map<string, Score>, s: Sample)
    requires SoundProgress(health, p) && SlashFree(s.service) && s.service != "" && s.instanceId != ""
    ensures var key, h' := ScoreKey(s.service, s.instanceId), Reported(p, base, overrides, t, scores, s).health;
            && h'.Keys == p.health.Keys + {key} && h'[key].service == s.service
            && forall k :: k in p.health && k != key ==> h'[k] == p.health[k]
  {
    hide Applied, Configured;
    OwnerIsSample(health, p, s);
    var key, owner := ScoreKey(s.service, s.instanceId), OwnerOf(p.health, s);
    var score := if key in scores then scores[key].total else 0.0;
    AppliedKeepsIdentity(Configured(base, overrides, owner.service), owner, Input(t.now, t.wall, score, SuccessRate(s)));
  }

  lemma {:induction false} ReportsTrack(health: Table, base: Config, overrides: map<string, Config>, t: Clock,
                                        scores: map<string, Score>, samples: seq<Sample>)
    requires Keyed(health) && Tracked(base, overrides, health) && Timed(t)
    requires forall s :: s in samples ==> SlashFree(s.service)
    ensures Tracked(base, overrides, ReportedAll(Progress(health, {}), base, overrides, t, scores, samples).health)
  {
    hide Reported, Keyed, Tracked;
    if samples != [] {
      var n := |samples| - 1;
      ReportsTrack(health, base, overrides, t, scores, samples[..n]);
      ReportsAreSound(health, base, overrides, t, scores, samples[..n]);
      ReportTracks(health, ReportedAll(Progress(health, {}), base, overrides, t, scores, samples[..n]),
                   base, overrides, t, scores, samples[n]);
    }
  }

  lemma TickTracks(health: Table, base: Config, overrides: map<string, Config>, t: Clock)
    requires Tracked(base, overrides, health) && Timed(t)
    ensures Tracked(base, overrides, TickedAll(base, overrides, t, health, health.Keys).health)
  {
    hide EndsRun, Configured, Next, Ticked;
    forall key | key in health
      ensures EndsRun(NodeOf(base, overrides, Ticked(base, overrides, t, health[key])))
    {
      TickedRecord(base, overrides, t, health[key]);
      TickIsWindow(base, overrides, t, health[key]);
      OneMoreEvent(NodeOf(base, overrides, health[key]), Window(Input(t.now, t.wall, health[key].slowScore, 1.0)));
    }
  }

  lemma ConfigsTrack(health: Table, base: Config, old_: map<string, Config>, new_: map<string, Config>, clock: string -> int)
    requires Tracked(base, old_, health)
    ensures Tracked(base, new_, ResetCounters(health, Reconfigures(base, old_, new_), clock))
  {
    hide EndsRun, Configured;
    var changed := Reconfigures(base, old_, new_);
    forall key | key in health
      ensures EndsRun(NodeOf(base, new_, ResetRecord(health[key], changed, clock)))
    {
      var h := health[key];
      SameConfigElsewhere(base, old_, new_, h.service);
      if h.service in changed {
        var cfg := Configured(base, new_, h.service);
        OneMoreEvent(NodeOf(base, old_, h), Reconfigured(cfg));
        assert NodeOf(base, new_, ResetRecord(h, changed, clock)) == Next(NodeOf(base, old_, h), Reconfigured(cfg));
      }
    }
  }

  lemma SameConfigElsewhere(base: Config, old_: map<string, Config>, new_: map<string, Config>, service: string)
    ensures service !in Reconfigures(base, old_, new_) ==> Configured(base, old_, service) == Configured(base, new_, service)
  {
    hide Resolve;
  }

  /** No snapshot is merged, and the clock is never the zero time. */
  predicate Plain(op: Operation) {
    !op.MergedIn? && (op.Updated? || op.TickedAt? ==> Timed(op.t))
  }

  ghost predicate TrackedState(base: Config, s: State) {
    ValidState(s) && Tracked(base, s.overrides, s.board.health)
  }

  lemma StepTracks(base: Config, s: State, op: Operation)
    requires TrackedState(base, s) && M.Enabled(s, op) && Plain(op)
    ensures TrackedState(base, Step(base, s, op))
  {
    hide Tracked, ReportedAll, TickedAll, ResetCounters, Pruned, Lost, ValidState;
    StepAdvances(base, s, op);
    ValidKeyed(s);
    match op
    case Updated(samples, scores, t) => ReportsTrack(s.board.health, base, s.overrides, t, scores, samples);
    case TickedAt(t) => TickTracks(s.board.health, base, s.overrides, t);
    case PrunedTo(retain, left) => PrunedTracks(base, s.overrides, retain, s.board.health, left);
    case ConfigsReplaced(overrides, clock) => ConfigsTrack(s.board.health, base, s.overrides, overrides, clock);
  }

  lemma ValidKeyed(s: State)
    requires ValidState(s)
    ensures Keyed(s.board.health)
  {
  }

  lemma PrunedTracks(base: Config, overrides: map<string, Config>, retain: map<Identity, string>, health: Table, left: Table)
    requires Tracked(base, overrides, health) && Pruned(retain, health, left, {})
    ensures Tracked(base, overrides, left)
  {
  }

  /** Over every run of a new manager without merges, each record is the end of a run of its state machine. */
  lemma {:induction false} ManagerRunsMachines(base: Config, ops: seq<Operation>, states: seq<State>, i: nat)
    requires M.IsRun(base, ops, states) && states[0] == EMPTY && i <= |ops|
    requires forall k :: 0 <= k < |ops| ==> Plain(ops[k])
    ensures TrackedState(base, states[i])
  {
    hide TrackedState, M.Enabled, Step;
    if i == 0 {
      EmptyTracks(base);
    } else {
      ManagerRunsMachines(base, ops, states, i - 1);
      StepTracks(base, states[i - 1], ops[i - 1]);
    }
  }

  lemma EmptyTracks(base: Config)
    ensures TrackedState(base, EMPTY)
  {
  }

  /** So the counters of every endpoint stay below the limit its service is configured with. */
  lemma ManagedCountersBelowLimit(base: Config, ops: seq<Operation>, states: seq<State>, i: nat, key: string)
    requires M.IsRun(base, ops, states) && states[0] == EMPTY && i <= |ops|
    requires forall k :: 0 <= k < |ops| ==> Plain(ops[k])
    requires key in states[i].board.health
    ensures var h := states[i].board.health[key];
            var limit := Configured(base, states[i].overrides, h.service).consecutiveWindows;
            && h.state in {Healthy, Degraded, Ejected, Probing}
            && (h.state == Healthy ==> h.slowWindows < limit && h.ejectWindows < limit)
            && (h.state == Degraded ==> h.ejectWindows < limit)
  {
    hide Configured;
    ManagerRunsMachines(base, ops, states, i);
    var h := states[i].board.health[key];
    assert EndsRun(NodeOf(base, states[i].overrides, h));
    var events, nodes :| StateMachine.IsRun(events, nodes) && nodes[|events|] == NodeOf(base, states[i].overrides, h);
    CountersBelowLimit(events, nodes, |events|);
  }

  /** A window that ends an ejection comes at least the ejection duration after the window that began it. */
  lemma WindowServesEjection(n: Node, input: Input)
    requires EndsRun(n) && TimeOf(input) != 0
    requires n.health.state == Ejected && Next(n, Window(input)).health.state != Ejected
    ensures Next(n, Window(input)).health.state == Probing
    ensures TimeOf(input) - n.health.ejectedAt >= n.cfg.ejectionDuration
    ensures exists events: seq<Event>, nodes: seq<Node>, at: int ::
              && StateMachine.IsRun(events, nodes) && nodes[|events|] == n
              && 0 <= at < |events| && events[at].Window? && nodes[at].health.state != Ejected
              && TimeOf(events[at].input) == n.health.ejectedAt
              && forall i :: at < i <= |events| ==> nodes[i].health.state == Ejected
  {
    var events, nodes :| StateMachine.IsRun(events, nodes) && nodes[|events|] == n;
    var at := EjectedSince(events, nodes, |events|);
  }

  /** A tick of the manager never cuts an ejection short, and ends one only by probing. */
  lemma TickServesEjection(base: Config, ops: seq<Operation>, states: seq<State>, i: nat, key: string)
    requires M.IsRun(base, ops, states) && states[0] == EMPTY && i < |ops| && ops[i].TickedAt?
    requires forall k :: 0 <= k < |ops| ==> Plain(ops[k])
    requires key in states[i].board.health && states[i].board.health[key].state == Ejected
    ensures var h, t := states[i].board.health[key], ops[i].t;
            && key in states[i + 1].board.health
            && (states[i + 1].board.health[key].state != Ejected ==>
                 && states[i + 1].board.health[key].state == Probing
                 && (if t.now == 0 then t.wall else t.now) - h.ejectedAt
                    >= Configured(base, states[i].overrides, h.service).ejectionDuration)
  {
    hide Configured, Applied, EndsRun;
    ManagerRunsMachines(base, ops, states, i);
    var s, h, t := states[i], states[i].board.health[key], ops[i].t;
    assert states[i + 1] == Step(base, s, ops[i]);
    var input := Input(t.now, t.wall, h.slowScore, 1.0);
    TickIsWindow(base, s.overrides, t, h);
    if Next(NodeOf(base, s.overrides, h), Window(input)).health.state != Ejected {
      WindowServesEjection(NodeOf(base, s.overrides, h), input);
    }
  }

  /** Nor does a sample from the same owner. */
  lemma ReportServesEjection(health: Table, p: Progress, base: Config, overrides: map<string, Config>, t: Clock,
                             scores: map<string, Score>, s: Sample)
    requires SoundProgress(health, p) && Tracked(base, overrides, p.health) && SlashFree(s.service) && Timed(t)
    requires var key := ScoreKey(s.service, s.instanceId);
             && s.service != "" && s.instanceId != "" && key in p.health && p.health[key].state == Ejected
             && !AddressChanged(p.health[key], s.address) && !EpochChanged(p.health[key], s.epoch)
    ensures var key := ScoreKey(s.service, s.instanceId);
            var h, p' := p.health[key], Reported(p, base, overrides, t, scores, s);
            && key in p'.health
            && (p'.health[key].state != Ejected ==>
                 && p'.health[key].state == Probing
                 && (if t.now == 0 then t.wall else t.now) - h.ejectedAt
                    >= Configured(base, overrides, h.service).ejectionDuration)
  {
    hide Configured, Applied, EndsRun, Reported;
    var key := ScoreKey(s.service, s.instanceId);
    var h := p.health[key];
    ScoreKeyInjective(h.service, h.instanceId, s.service, s.instanceId);
    ReportIsWindow(p, base, overrides, t, scores, s);
    var score := if key in scores then scores[key].total else 0.0;
    var input := Input(t.now, t.wall, score, SuccessRate(s));
    if Next(NodeOf(base, overrides, h), Window(input)).health.state != Ejected {
      WindowServesEjection(NodeOf(base, overrides, h), input);
    }
  }
}
