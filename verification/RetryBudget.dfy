/**
 The windowed retry budget and the retry loop that spends it, for any number of callers and any
 interleaving of their atomic steps. The window's read-write lock is modelled by what it excludes:
 a rollover happens only while no caller is inside a budget call.
 */
module RetryBudget {
  import opened Counting

  datatype Config = Config(ratio: real, minBudget: int, maxAttempts: int)

  /** What construction normalises to. */
  predicate Normal(cfg: Config) {
    cfg.ratio >= 0.0 && cfg.minBudget >= 0 && cfg.maxAttempts >= 1
  }

  function Allowed(cfg: Config, originals: nat): int {
    var byRatio := (originals as real * cfg.ratio + 0.000000001).Floor;
    if byRatio < cfg.minBudget then cfg.minBudget else byRatio
  }

  datatype Outcome = Succeeded | Permanent | Retryable

  datatype Pc =
    | Idle
    | Counting                                           // inside RecordOriginal
    | Ready(attempt: int)                                // about to invoke
    | Failed(attempt: int)                               // retryable failure, attempts left
    | Asking(attempt: int)                               // inside TryAcquireRetry
    | Knows(attempt: int, allowed: int)                  // capacity read
    | Added(attempt: int, allowed: int, retries: int)    // optimistic increment made
    | RollingBack(attempt: int)

  datatype Class = Winner | Loser | Waiting | Inside | Outside

  /** Winner: its increment fits the capacity it read. Waiting: granted or counted, not yet invoked. */
  function ClassOf(pc: Pc): Class {
    match pc
    case Added(_, allowed, retries) => if retries <= allowed then Winner else Loser
    case RollingBack(_) => Loser
    case Ready(_) => Waiting
    case Counting | Asking(_) | Knows(_, _) => Inside
    case _ => Outside
  }

  datatype Window = Window(originals: nat, granted: nat)

  datatype State = State(
    originals: nat,       // the two atomic counters
    counter: int,
    granted: nat,         // of the current window
    recorded: nat,        // retries other callers recorded without asking
    closed: seq<Window>,
    invocations: nat,
    threads: map<nat, Pc>)

  function PcOf(threads: map<nat, Pc>, t: nat): Pc {
    if t in threads then threads[t] else Idle
  }

  function In(threads: map<nat, Pc>, c: Class): set<nat> {
    set t | t in threads && ClassOf(threads[t]) == c
  }

  datatype Action =
    | Start(t: nat) | Count(t: nat) | Invoke(t: nat, outcome: Outcome)
    | Ask(t: nat) | ReadAllowed(t: nat) | Add(t: nat) | Decide(t: nat) | Rollback(t: nat)
    | RecordRetry | Rollover

  /** No caller holds the read lock. */
  predicate NobodyInside(threads: map<nat, Pc>) {
    In(threads, Winner) == {} && In(threads, Loser) == {} && In(threads, Inside) == {}
  }

  predicate Enabled(s: State, a: Action) {
    match a
    case Start(t) => PcOf(s.threads, t).Idle?
    case Count(t) => PcOf(s.threads, t).Counting?
    case Invoke(t, _) => PcOf(s.threads, t).Ready?
    case Ask(t) => PcOf(s.threads, t).Failed?
    case ReadAllowed(t) => PcOf(s.threads, t).Asking?
    case Add(t) => PcOf(s.threads, t).Knows?
    case Decide(t) => PcOf(s.threads, t).Added?
    case Rollback(t) => PcOf(s.threads, t).RollingBack?
    case RecordRetry => true
    case Rollover => NobodyInside(s.threads)
  }

  function At(s: State, t: nat, pc: Pc): State {
    s.(threads := s.threads[t := pc])
  }

  function Step(cfg: Config, s: State, a: Action): State
    requires Enabled(s, a)
  {
    match a
    case Start(t) => At(s, t, Counting)
    case Count(t) => At(s.(originals := s.originals + 1), t, Ready(1))
    case Invoke(t, outcome) =>
      var attempt := s.threads[t].attempt;
      At(s.(invocations := s.invocations + 1), t,
         if outcome.Retryable? && attempt != cfg.maxAttempts then Failed(attempt) else Idle)
    case Ask(t) => At(s, t, Asking(s.threads[t].attempt))
    case ReadAllowed(t) =>
      var allowed := Allowed(cfg, s.originals);
      At(s, t, if allowed <= 0 then Idle else Knows(s.threads[t].attempt, allowed))
    case Add(t) =>
      var pc := s.threads[t];
      At(s.(counter := s.counter + 1), t, Added(pc.attempt, pc.allowed, s.counter + 1))
    case Decide(t) =>
      var pc := s.threads[t];
      if pc.retries <= pc.allowed then At(s.(granted := s.granted + 1), t, Ready(pc.attempt + 1))
      else At(s, t, RollingBack(pc.attempt))
    case Rollback(t) => At(s.(counter := s.counter - 1), t, Idle)
    case RecordRetry => s.(counter := s.counter + 1, recorded := s.recorded + 1)
    case Rollover =>
      s.(originals := 0, counter := 0, granted := 0, recorded := 0,
         closed := s.closed + [Window(s.originals, s.granted)])
  }

  const INITIAL := State(0, 0, 0, 0, [], 0, map[])

  ghost predicate IsRun(cfg: Config, actions: seq<Action>, states: seq<State>) {
    && |states| == |actions| + 1 && states[0] == INITIAL
    && forall i :: 0 <= i < |actions| ==> Enabled(states[i], actions[i]) && states[i + 1] == Step(cfg, states[i], actions[i])
  }

  function TotalOriginals(ws: seq<Window>): nat {
    if ws == [] then 0 else TotalOriginals(ws[..|ws| - 1]) + ws[|ws| - 1].originals
  }

  function TotalGranted(ws: seq<Window>): nat {
    if ws == [] then 0 else TotalGranted(ws[..|ws| - 1]) + ws[|ws| - 1].granted
  }

  /** A capacity some caller read is still no more than the current one. */
  predicate Current(cfg: Config, s: State, pc: Pc) {
    && (pc.Knows? || pc.Added? ==> pc.allowed <= Allowed(cfg, s.originals))
    && (pc.Ready? ==> 1 <= pc.attempt <= cfg.maxAttempts)
    && (pc.Failed? || pc.Asking? || pc.Knows? || pc.Added? ==> 1 <= pc.attempt < cfg.maxAttempts)
  }

  ghost predicate Inv(cfg: Config, s: State) {
    && s.counter == s.granted + s.recorded + |In(s.threads, Winner)| + |In(s.threads, Loser)|
    && s.granted + |In(s.threads, Winner)| <= Allowed(cfg, s.originals)
    && s.invocations + |In(s.threads, Waiting)| ==
       TotalOriginals(s.closed) + s.originals + TotalGranted(s.closed) + s.granted
    && (forall t :: t in s.threads ==> Current(cfg, s, s.threads[t]))
    && (forall i :: 0 <= i < |s.closed| ==> s.closed[i].granted <= Allowed(cfg, s.closed[i].originals))
  }

  /** Moving one thread changes each class count by that thread alone. */
  lemma Moved(threads: map<nat, Pc>, t: nat, pc: Pc, c: Class)
    ensures |In(threads[t := pc], c)| ==
            |In(threads, c)| - One(t in threads && ClassOf(threads[t]) == c) + One(ClassOf(pc) == c)
  {
    var before, after := In(threads, c), In(threads[t := pc], c);
    assert before - {t} == after - {t};
    CountDiffers(before, after, t);
  }

  lemma AllowedGrows(cfg: Config, a: nat, b: nat)
    requires Normal(cfg) && a <= b
    ensures 0 <= Allowed(cfg, a) <= Allowed(cfg, b)
  {
    ShareGrows(a as real, b as real, cfg.ratio);
    ShareGrows(0.0, a as real, cfg.ratio);
    FloorGrows(a as real * cfg.ratio + 0.000000001, b as real * cfg.ratio + 0.000000001);
  }

  /** The capacity: the minimum, or the share of the originals rounded down up to a billionth, if that is more. */
  lemma AllowedMeans(cfg: Config, originals: nat)
    ensures var share := originals as real * cfg.ratio + 0.000000001;
            && Allowed(cfg, originals) >= cfg.minBudget && Allowed(cfg, originals) as real > share - 1.0
            && (Allowed(cfg, originals) == cfg.minBudget || Allowed(cfg, originals) as real <= share)
  {
  }

  lemma ShareGrows(a: real, b: real, ratio: real)
    requires a <= b && ratio >= 0.0
    ensures a * ratio <= b * ratio
  {
    assert (b - a) * ratio >= 0.0;
  }

  lemma FloorGrows(x: real, y: real)
    requires x <= y
    ensures x.Floor <= y.Floor
  {
  }

  lemma StepKeepsInv(cfg: Config, s: State, a: Action)
    requires Normal(cfg) && Inv(cfg, s) && Enabled(s, a)
    ensures Inv(cfg, Step(cfg, s, a))
  {
    hide Allowed, In, TotalOriginals, TotalGranted;
    var s' := Step(cfg, s, a);
    AllowedGrows(cfg, s.originals, s.originals + 1);
    if a.Rollover? {
      WindowCloses(s.closed, Window(s.originals, s.granted));
      AllowedGrows(cfg, 0, 0);
      ThreadsOutside(cfg, s);
    } else if !a.RecordRetry? {
      Moved(s.threads, a.t, PcOf(s'.threads, a.t), Winner);
      Moved(s.threads, a.t, PcOf(s'.threads, a.t), Loser);
      Moved(s.threads, a.t, PcOf(s'.threads, a.t), Waiting);
    }
  }

  lemma WindowCloses(ws: seq<Window>, w: Window)
    ensures TotalOriginals(ws + [w]) == TotalOriginals(ws) + w.originals
    ensures TotalGranted(ws + [w]) == TotalGranted(ws) + w.granted
  {
    assert (ws + [w])[..|ws|] == ws;
  }

  lemma ThreadsOutside(cfg: Config, s: State)
    requires NobodyInside(s.threads)
    ensures forall t :: t in s.threads ==> !s.threads[t].Knows? && !s.threads[t].Added?
  {
    forall t | t in s.threads ensures !s.threads[t].Knows? && !s.threads[t].Added? {
      assert t !in In(s.threads, Winner) && t !in In(s.threads, Loser) && t !in In(s.threads, Inside);
    }
  }

  lemma {:induction false} RunKeepsInv(cfg: Config, actions: seq<Action>, states: seq<State>, i: nat)
    requires Normal(cfg) && IsRun(cfg, actions, states) && i <= |actions|
    ensures Inv(cfg, states[i])
  {
    if i > 0 {
      RunKeepsInv(cfg, actions, states, i - 1);
      StepKeepsInv(cfg, states[i - 1], actions[i - 1]);
    } else {
      AllowedGrows(cfg, 0, 0);
    }
  }

  /** The states a caller passes through when it asks and nobody interferes. */
  function AskedAlone(cfg: Config, s: State, t: nat): State
    requires PcOf(s.threads, t).Failed?
  {
    var read := Step(cfg, Step(cfg, s, Ask(t)), ReadAllowed(t));
    if PcOf(read.threads, t).Idle? then read
    else
      var decided := Step(cfg, Step(cfg, read, Add(t)), Decide(t));
      if PcOf(decided.threads, t).RollingBack? then Step(cfg, decided, Rollback(t)) else decided
  }

  /** An uncontended ask is granted exactly while the counter is below the capacity; a refusal leaves no trace. */
  lemma AskAloneDecides(cfg: Config, s: State, t: nat)
    requires Normal(cfg) && Inv(cfg, s) && PcOf(s.threads, t).Failed?
    ensures var next := AskedAlone(cfg, s, t);
            var granted := s.counter < Allowed(cfg, s.originals);
            next == if granted
              then s.(counter := s.counter + 1, granted := s.granted + 1,
                      threads := s.threads[t := Ready(s.threads[t].attempt + 1)])
              else s.(threads := s.threads[t := Idle])
  {
    hide Allowed, Inv, NobodyInside;
    CounterCounts(cfg, s);
  }

  lemma CounterCounts(cfg: Config, s: State)
    requires Inv(cfg, s)
    ensures s.counter >= 0
  {
  }

  /** The outcomes of the invocations `t` has made since it last started. */
  function Outcomes(actions: seq<Action>, t: nat): seq<Outcome> {
    if actions == [] then []
    else
      var n := |actions| - 1;
      if actions[n] == Start(t) then []
      else if actions[n].Invoke? && actions[n].t == t then Outcomes(actions[..n], t) + [actions[n].outcome]
      else Outcomes(actions[..n], t)
  }

  /** The budget ended the caller's last call. */
  predicate Refused(actions: seq<Action>, t: nat) {
    if actions == [] then false
    else
      var n := |actions| - 1;
      match actions[n]
      case RecordRetry | Rollover => Refused(actions[..n], t)
      case _ =>
        if actions[n].t == t then actions[n].ReadAllowed? || actions[n].Rollback?
        else Refused(actions[..n], t)
  }

  function Made(pc: Pc): int {
    match pc
    case Ready(attempt) => attempt - 1
    case Failed(attempt) => attempt
    case Asking(attempt) => attempt
    case Knows(attempt, _) => attempt
    case Added(attempt, _, _) => attempt
    case RollingBack(attempt) => attempt
    case _ => 0
  }

  ghost predicate CallShape(cfg: Config, actions: seq<Action>, s: State, t: nat) {
    var outcomes, pc := Outcomes(actions, t), PcOf(s.threads, t);
    && |outcomes| <= cfg.maxAttempts
    && (forall n :: 0 <= n < |outcomes| - 1 ==> outcomes[n] == Retryable)
    && (!pc.Idle? ==> |outcomes| == Made(pc) && forall n :: 0 <= n < |outcomes| ==> outcomes[n] == Retryable)
    && (pc.Idle? && outcomes != [] && outcomes[|outcomes| - 1] == Retryable
        ==> |outcomes| == cfg.maxAttempts || Refused(actions, t))
  }

  /**
   One call of the retry loop in any interleaving: at most the configured attempts, every one but the
   last failed retryably, and a call given up after a retryable failure used up its attempts or was
   refused by the budget.
   */
  lemma {:induction false} CallsRetryOnlyRetryable(cfg: Config, actions: seq<Action>, states: seq<State>, i: nat, t: nat)
    requires Normal(cfg) && IsRun(cfg, actions, states) && i <= |actions|
    ensures CallShape(cfg, actions[..i], states[i], t)
  {
    hide Inv, Allowed, NobodyInside;
    if i > 0 {
      CallsRetryOnlyRetryable(cfg, actions, states, i - 1, t);
      assert actions[..i][..i - 1] == actions[..i - 1];
      RunKeepsInv(cfg, actions, states, i - 1);
      AttemptsBounded(cfg, states[i - 1], t);
    }
  }

  lemma AttemptsBounded(cfg: Config, s: State, t: nat)
    requires Inv(cfg, s)
    ensures PcOf(s.threads, t).Ready? ==> PcOf(s.threads, t).attempt <= cfg.maxAttempts
  {
    if t in s.threads {
      assert Current(cfg, s, s.threads[t]);
    }
  }

  /** In every interleaving, no window ever grants more retries than its capacity. */
  lemma GrantsBounded(cfg: Config, actions: seq<Action>, states: seq<State>, i: nat)
    requires Normal(cfg) && IsRun(cfg, actions, states) && i <= |actions|
    ensures var s := states[i];
            && s.granted <= Allowed(cfg, s.originals)
            && forall w :: 0 <= w < |s.closed| ==> s.closed[w].granted <= Allowed(cfg, s.closed[w].originals)
  {
    RunKeepsInv(cfg, actions, states, i);
  }

  /** Conservation: every invocation is an original or a granted retry, and none is made twice. */
  lemma InvocationsAccountedFor(cfg: Config, actions: seq<Action>, states: seq<State>, i: nat)
    requires Normal(cfg) && IsRun(cfg, actions, states) && i <= |actions|
    ensures var s := states[i];
            s.invocations + |In(s.threads, Waiting)| ==
            TotalOriginals(s.closed) + s.originals + TotalGranted(s.closed) + s.granted
  {
    RunKeepsInv(cfg, actions, states, i);
  }

  /** The retries that so many windows and originals can grant: a constant each, and the ratio. */
  function Linear(cfg: Config, windows: nat, originals: nat): real {
    windows as real * (cfg.minBudget as real + 0.000000001) + cfg.ratio * originals as real
  }

  lemma LinearAdds(cfg: Config, w1: nat, o1: nat, w2: nat, o2: nat)
    ensures Linear(cfg, w1 + w2, o1 + o2) == Linear(cfg, w1, o1) + Linear(cfg, w2, o2)
  {
    var c := cfg.minBudget as real + 0.000000001;
    assert (w1 + w2) as real * c == w1 as real * c + w2 as real * c;
    assert cfg.ratio * (o1 + o2) as real == cfg.ratio * o1 as real + cfg.ratio * o2 as real;
  }

  lemma AllowedIsLinear(cfg: Config, originals: nat)
    requires Normal(cfg)
    ensures Allowed(cfg, originals) as real <= Linear(cfg, 1, originals)
  {
    assert cfg.ratio * originals as real == originals as real * cfg.ratio >= 0.0;
  }

  lemma {:induction false} ClosedGrants(cfg: Config, ws: seq<Window>)
    requires Normal(cfg) && forall w :: 0 <= w < |ws| ==> ws[w].granted <= Allowed(cfg, ws[w].originals)
    ensures TotalGranted(ws) as real <= Linear(cfg, |ws|, TotalOriginals(ws))
  {
    if ws != [] {
      hide Linear, Allowed;
      var n := |ws| - 1;
      ClosedGrants(cfg, ws[..n]);
      AllowedIsLinear(cfg, ws[n].originals);
      LinearAdds(cfg, n, TotalOriginals(ws[..n]), 1, ws[n].originals);
    }
  }

  /** Amplification over the whole run: the ratio of the originals plus a constant per window. */
  lemma AmplificationBounded(cfg: Config, actions: seq<Action>, states: seq<State>, i: nat)
    requires Normal(cfg) && IsRun(cfg, actions, states) && i <= |actions|
    ensures var s := states[i];
            var originals, windows := TotalOriginals(s.closed) + s.originals, |s.closed| + 1;
            s.invocations as real <= originals as real + Linear(cfg, windows, originals)
  {
    hide Linear, Allowed;
    RunKeepsInv(cfg, actions, states, i);
    var s := states[i];
    ClosedGrants(cfg, s.closed);
    AllowedIsLinear(cfg, s.originals);
    LinearAdds(cfg, |s.closed|, TotalOriginals(s.closed), 1, s.originals);
  }
}
